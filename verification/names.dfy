// App and environment names, the targets of `shelf setup` and `shelf add`,
// and the Redis key patterns built from names.
module Names {
  import opened Text

  predicate IsLower(c: char) { 'a' <= c <= 'z' }

  predicate IsNameChar(c: char) { IsLower(c) || '0' <= c <= '9' || c == '-' }

  // ^[a-z][a-z0-9-]*$
  predicate ValidName(s: string)
  {
    s != "" && IsLower(s[0]) && forall i :: 0 <= i < |s| ==> IsNameChar(s[i])
  }

  // The separators the rest of the program relies on never occur in a name.
  lemma ValidNamesAreClean(s: string)
    requires ValidName(s)
    ensures NoSpace(s) && Trimmed(s)
    ensures forall c :: c in s ==> c !in ":/,\t\n=\"'*?[]\\_.~"
  {
    forall c | c in s
      ensures c !in ":/,\t\n=\"'*?[]\\_.~" && !IsSpace(c)
    {
      var i :| 0 <= i < |s| && s[i] == c;
      assert IsNameChar(s[i]);
    }
  }

  // ------------------------------------------------------------- key patterns

  datatype Token =
    | Literal(c: char)
    | AnyChar
    | Star
    | Class(negated: bool, ranges: seq<(char, char)>)

  // Redis' own glob language for KEYS and ACL patterns: `*`, `?`, `[...]` and
  // backslash escapes; every other character stands for itself.
  function Tokens(p: string): seq<Token>
    decreases |p|, 1
  {
    if p == "" then []
    else if p[0] == '*' then [Star] + Tokens(p[1..])
    else if p[0] == '?' then [AnyChar] + Tokens(p[1..])
    else if p[0] == '[' then
      if |p| > 1 && p[1] == '^' then ClassTokens(p[2..], true, []) else ClassTokens(p[1..], false, [])
    else if p[0] == '\\' && |p| > 1 then [Literal(p[1])] + Tokens(p[2..])
    else [Literal(p[0])] + Tokens(p[1..])
  }

  function ClassTokens(p: string, negated: bool, ranges: seq<(char, char)>): seq<Token>
    decreases |p|, 0
  {
    if p == "" then [Class(negated, ranges)]
    else if p[0] == ']' then [Class(negated, ranges)] + Tokens(p[1..])
    else if p[0] == '\\' && |p| > 1 then ClassTokens(p[2..], negated, ranges + [(p[1], p[1])])
    else if |p| >= 3 && p[1] == '-' then
      ClassTokens(p[3..], negated, ranges + [if p[0] <= p[2] then (p[0], p[2]) else (p[2], p[0])])
    else ClassTokens(p[1..], negated, ranges + [(p[0], p[0])])
  }

  predicate InClass(c: char, t: Token)
    requires t.Class?
  {
    t.negated != exists r :: r in t.ranges && r.0 <= c <= r.1
  }

  predicate Matches(ts: seq<Token>, s: string)
    decreases |ts| + |s|
  {
    if ts == [] then s == ""
    else match ts[0]
      case Star => Matches(ts[1..], s) || (s != "" && Matches(ts, s[1..]))
      case AnyChar => s != "" && Matches(ts[1..], s[1..])
      case Literal(c) => s != "" && s[0] == c && Matches(ts[1..], s[1..])
      case Class(_, _) => s != "" && InClass(s[0], ts[0]) && Matches(ts[1..], s[1..])
  }

  predicate Glob(pattern: string, s: string)
  {
    Matches(Tokens(pattern), s)
  }

  lemma {:induction false} StarMatchesAll(s: string)
    ensures Matches([Star], s)
  {
    if s == "" {
      assert Matches([Star][1..], s);
    } else {
      StarMatchesAll(s[1..]);
    }
  }

  lemma {:induction false} PlainThenStar(p: string, s: string)
    requires forall c :: c in p ==> c !in "*?[\\"
    ensures Matches(Tokens(p + "*"), s) <==> p <= s
  {
    if p == "" {
      assert p + "*" == "*" && Tokens("*") == [Star] + Tokens("*"[1..]) == [Star];
      StarMatchesAll(s);
    } else {
      var q := p + "*";
      assert q[0] == p[0] && q[1..] == p[1..] + "*";
      assert p[0] in p;
      assert Tokens(q) == [Literal(p[0])] + Tokens(q[1..]);
      if s != "" {
        PlainThenStar(p[1..], s[1..]);
        assert Tokens(q)[1..] == Tokens(q[1..]);
        assert p <= s <==> p[0] == s[0] && p[1..] <= s[1..];
      }
    }
  }

  function Namespace(app: string): string { app + ":" }

  // KEYS <app>:* selects exactly the keys that start with "<app>:".
  lemma PatternIsPrefix(app: string, key: string)
    requires ValidName(app)
    ensures Glob(app + ":*", key) <==> Namespace(app) <= key
  {
    ValidNamesAreClean(app);
    assert app + ":*" == Namespace(app) + "*";
    PlainThenStar(Namespace(app), key);
  }

  lemma FirstColon(app: string, key: string)
    requires ValidName(app) && Namespace(app) <= key
    ensures |app| < |key| && key[|app|] == ':' && key[..|app|] == app
    ensures forall i :: 0 <= i < |app| ==> key[i] != ':'
  {
    forall i | 0 <= i < |app|
      ensures key[i] != ':'
    {
      assert key[i] == app[i] && IsNameChar(app[i]);
    }
  }

  // Two apps never share a key.
  lemma NamespacesAreDisjoint(a: string, b: string, key: string)
    requires ValidName(a) && ValidName(b)
    requires Namespace(a) <= key && Namespace(b) <= key
    ensures a == b
  {
    FirstColon(a, key);
    FirstColon(b, key);
  }

  // ------------------------------------------------------------------ targets

  datatype Target = Target(name: string, signozServiceName: string, signozEnv: string)

  predicate Distinct<T(==)>(s: seq<T>)
  {
    forall i, j :: 0 <= i < j < |s| ==> s[i] != s[j]
  }

  // What ParseEnvs hands over.
  predicate GoodEnvs(envs: seq<string>)
  {
    Distinct(envs) && forall i :: 0 <= i < |envs| ==> ValidName(envs[i])
  }

  datatype EnvsResult = Envs(envs: seq<string>) | EnvsError

  function NonEmptyTrimmed(parts: seq<string>): seq<string>
  {
    if parts == [] then []
    else
      var p := TrimSpace(parts[0]);
      (if p == "" then [] else [p]) + NonEmptyTrimmed(parts[1..])
  }

  // ParseEnvs: the comma-separated environments, or an error.
  method ParseEnvs(raw: string) returns (r: EnvsResult)
    ensures raw == "" ==> r == Envs([])
    ensures raw != "" ==>
      var parts := NonEmptyTrimmed(Split(raw, ','));
      r == if parts != [] && GoodEnvs(parts) then Envs(parts) else EnvsError
    ensures r.Envs? ==> GoodEnvs(r.envs)
  {
    if raw == "" {
      return Envs([]);
    }
    var parts := TrimParts(Split(raw, ','));
    if |parts| == 0 {
      return EnvsError;
    }
    var ok := CheckEnvs(parts);
    return if ok then Envs(parts) else EnvsError;
  }

  // The first loop of ParseEnvs.
  method TrimParts(pieces: seq<string>) returns (parts: seq<string>)
    ensures parts == NonEmptyTrimmed(pieces)
  {
    parts := [];
    var i := 0;
    while i < |pieces|
      invariant 0 <= i <= |pieces|
      invariant parts + NonEmptyTrimmed(pieces[i..]) == NonEmptyTrimmed(pieces)
    {
      var p := TrimSpace(pieces[i]);
      TrimPartsStep(pieces, i);
      if p != "" {
        Regroup(parts, [p], NonEmptyTrimmed(pieces[i + 1..]));
        parts := parts + [p];
      }
      i := i + 1;
    }
  }

  lemma TrimPartsStep(pieces: seq<string>, i: nat)
    requires i < |pieces|
    ensures TrimSpace(pieces[i]) == "" ==> NonEmptyTrimmed(pieces[i..]) == NonEmptyTrimmed(pieces[i + 1..])
    ensures TrimSpace(pieces[i]) != "" ==>
      NonEmptyTrimmed(pieces[i..]) == [TrimSpace(pieces[i])] + NonEmptyTrimmed(pieces[i + 1..])
  {
    assert pieces[i..][1..] == pieces[i + 1..];
  }

  // The second loop of ParseEnvs, with its map of the names seen so far.
  method CheckEnvs(parts: seq<string>) returns (ok: bool)
    ensures ok <==> GoodEnvs(parts)
  {
    var seen: set<string> := {};
    for i := 0 to |parts|
      invariant forall e :: e in seen <==> exists k :: 0 <= k < i && parts[k] == e
      invariant forall k :: 0 <= k < i ==> ValidName(parts[k])
      invariant forall j, k :: 0 <= j < k < i ==> parts[j] != parts[k]
    {
      if !ValidName(parts[i]) || parts[i] in seen {
        return false;
      }
      seen := seen + {parts[i]};
    }
    ok := true;
  }

  function Sibling(app: string, env: string): string { app + "-" + env }

  function SiblingTarget(app: string, env: string): Target
  {
    Target(Sibling(app, env), app, env)
  }

  function Siblings(app: string, envs: seq<string>): (ts: seq<Target>)
    ensures |ts| == |envs|
    ensures forall i :: 0 <= i < |envs| ==> ts[i] == SiblingTarget(app, envs[i])
  {
    if envs == [] then [] else [SiblingTarget(app, envs[0])] + Siblings(app, envs[1..])
  }

  function SetupTargets(app: string, envs: seq<string>, env: string): seq<Target>
  {
    if envs != [] then Siblings(app, envs) else [Target(app, app, env)]
  }

  // Expanded targets are valid app names and pairwise distinct.
  lemma SetupTargetsAreSound(app: string, envs: seq<string>, env: string)
    requires ValidName(app) && GoodEnvs(envs)
    ensures forall i :: 0 <= i < |SetupTargets(app, envs, env)| ==> ValidName(SetupTargets(app, envs, env)[i].name)
    ensures forall i, j :: 0 <= i < j < |SetupTargets(app, envs, env)| ==>
      SetupTargets(app, envs, env)[i].name != SetupTargets(app, envs, env)[j].name
  {
    var ts := SetupTargets(app, envs, env);
    if envs != [] {
      forall i | 0 <= i < |ts|
        ensures ValidName(ts[i].name)
      {
        var n := Sibling(app, envs[i]);
        assert ValidName(envs[i]);
        forall k | 0 <= k < |n|
          ensures IsNameChar(n[k])
        {
          if k > |app| {
            assert n[k] == envs[i][k - |app| - 1];
          }
        }
        assert n[0] == app[0];
      }
      forall i, j | 0 <= i < j < |ts|
        ensures ts[i].name != ts[j].name
      {
        assert ts[i].name[|app| + 1..] == envs[i] && ts[j].name[|app| + 1..] == envs[j];
      }
    }
  }

  // The loop of BuildSetupTargets.
  method BuildSetupTargets(app: string, envs: seq<string>, env: string) returns (ts: seq<Target>)
    ensures ts == SetupTargets(app, envs, env)
  {
    if |envs| > 0 {
      ts := [];
      for i := 0 to |envs|
        invariant ts == Siblings(app, envs)[..i]
      {
        ts := ts + [Target(app + "-" + envs[i], app, envs[i])];
      }
    } else {
      ts := [Target(app, app, env)];
    }
  }
}
