// The .env text of an app, and the parser that reads such files.
module Dotenv {
  import opened Text
  import opened Names
  import opened Registry

  type Env = map<string, string>

  datatype Pair = Pair(key: string, value: string)

  // ------------------------------------------------------------------- parser

  predicate Wrapped(v: string)
  {
    |v| >= 2 && v[0] == v[|v| - 1] && (v[0] == '"' || v[0] == '\'')
  }

  function Unquote(v: string): string
  {
    if Wrapped(v) then v[1..|v| - 1] else v
  }

  // strings.Cut at the first '='.
  function Cut(line: string): Option<(string, string)>
  {
    if line == "" then None
    else if line[0] == '=' then Some(("", line[1..]))
    else
      var rest := Cut(line[1..]);
      if rest.None? then None else Some(([line[0]] + rest.value.0, rest.value.1))
  }

  // One line: a pair, or nothing for blanks, comments and lines without '='.
  function ParseLine(raw: string): Option<Pair>
  {
    var line := TrimSpace(raw);
    if line == "" || line[0] == '#' then None
    else
      var cut := Cut(line);
      if cut.None? then None else Some(Pair(TrimSpace(cut.value.0), Unquote(TrimSpace(cut.value.1))))
  }

  function WithLine(env: Env, line: string): Env
  {
    var p := ParseLine(line);
    if p.None? then env else env[p.value.key := p.value.value]
  }

  function WithLines(env: Env, lines: seq<string>): Env
    decreases |lines|
  {
    if lines == [] then env else WithLines(WithLine(env, lines[0]), lines[1..])
  }

  function ParsedEnv(content: string): Env
  {
    WithLines(map[], Split(content, '\n'))
  }

  // parseDotenv.
  method ParseDotenv(content: string) returns (env: Env)
    ensures env == ParsedEnv(content)
  {
    env := map[];
    var lines := Split(content, '\n');
    var i := 0;
    while i < |lines|
      invariant 0 <= i <= |lines|
      invariant WithLines(env, lines[i..]) == WithLines(map[], lines)
    {
      assert lines[i..][1..] == lines[i + 1..];
      var line := TrimSpace(lines[i]);
      i := i + 1;
      if line == "" || line[0] == '#' {
        continue;
      }
      var cut := Cut(line);
      if cut.None? {
        continue;
      }
      var value := TrimSpace(cut.value.1);
      if |value| >= 2 {
        if (HasPrefix(value, "\"") && HasSuffix(value, "\"")) || (HasPrefix(value, "'") && HasSuffix(value, "'")) {
          value := value[1..|value| - 1];
        }
      }
      env := env[TrimSpace(cut.value.0) := value];
    }
  }

  lemma {:induction false} WithLinesConcat(env: Env, a: seq<string>, b: seq<string>)
    ensures WithLines(env, a + b) == WithLines(WithLines(env, a), b)
    decreases |a|
  {
    if a == [] {
      assert a + b == b;
    } else {
      assert (a + b)[1..] == a[1..] + b;
      WithLinesConcat(WithLine(env, a[0]), a[1..], b);
    }
  }

  // ------------------------------------------------------------ single lines

  // A value that a line can carry.
  predicate CleanValue(v: string)
  {
    '\n' !in v && Trimmed(v) && !Wrapped(v)
  }

  // What the parser makes of a value.
  function Read(v: string): string { Unquote(TrimSpace(TrimRight(v))) }

  lemma ReadsBackIff(v: string)
    requires '\n' !in v
    ensures Read(v) == v <==> CleanValue(v)
  {
    if CleanValue(v) {
      CleanReadsBack(v);
    }
    if Read(v) == v {
      ReadBackIsClean(v);
    }
  }

  // Quotes around a value are taken off, whatever is between them.
  lemma QuotedIsRead(v: string)
    ensures Read("\"" + v + "\"") == v && Read("'" + v + "'") == v
  {
    var d, s := "\"" + v + "\"", "'" + v + "'";
    TrimFixes(d);
    TrimFixes(s);
    assert TrimRight(d) == d && TrimRight(s) == s;
    assert d[1..|d| - 1] == v && s[1..|s| - 1] == v;
  }

  lemma CleanReadsBack(v: string)
    requires CleanValue(v)
    ensures Read(v) == v
  {
    TrimFixes(v);
    assert TrimRight(v) == v;
  }

  lemma ReadBackIsClean(v: string)
    requires '\n' !in v && Read(v) == v
    ensures CleanValue(v)
  {
    var r := TrimRight(v);
    ReadShrinks(v);
    assert r == v;
    assert TrimSpace(v) == v;
    TrimFixes(v);
  }

  // Each stage of the reading can only make a value shorter.
  lemma ReadShrinks(v: string)
    ensures TrimRight(v) <= v
    ensures |Read(v)| <= |TrimSpace(TrimRight(v))| <= |TrimRight(v)| <= |v|
    ensures |TrimSpace(TrimRight(v))| == |TrimRight(v)| ==> TrimSpace(TrimRight(v)) == TrimRight(v)
    ensures Wrapped(TrimSpace(TrimRight(v))) ==> |Read(v)| < |v|
  {
    TrimRightPrefix(v);
    TrimSpaceShrinks(TrimRight(v));
  }

  lemma TrimSpaceShrinks(s: string)
    ensures |TrimSpace(s)| <= |s| && (|TrimSpace(s)| == |s| ==> TrimSpace(s) == s)
  {
    TrimLeftSuffix(s);
    TrimRightPrefix(TrimLeft(s));
  }

  lemma {:induction false} CutAtFirst(key: string, value: string)
    requires '=' !in key
    ensures Cut(key + "=" + value) == Some((key, value))
  {
    var line := key + "=" + value;
    if key == "" {
      assert line[0] == '=' && line[1..] == value;
    } else {
      assert line[1..] == key[1..] + "=" + value;
      CutAtFirst(key[1..], value);
      assert [key[0]] + key[1..] == key;
    }
  }

  lemma {:induction false} TrimRightOfTail(a: string, v: string)
    requires a != "" && !IsSpace(a[|a| - 1])
    ensures TrimRight(a + v) == a + TrimRight(v)
  {
    var s := a + v;
    if v == "" {
      assert s == a;
    } else {
      assert s[|s| - 1] == v[|v| - 1] && s[..|s| - 1] == a + v[..|v| - 1];
      if IsSpace(v[|v| - 1]) {
        TrimRightOfTail(a, v[..|v| - 1]);
      }
    }
  }

  predicate GoodKey(key: string)
  {
    key != "" && NoSpace(key) && '=' !in key && key[0] != '#' && '\n' !in key
  }

  // A printed pair is read as its key and its value, trimmed and unquoted.
  lemma PairLine(key: string, value: string)
    requires GoodKey(key)
    ensures ParseLine(key + "=" + value) == Some(Pair(key, Read(value)))
  {
    var line := key + "=" + value;
    assert line == (key + "=") + value && line[0] == key[0];
    TrimRightOfTail(key + "=", value);
    assert TrimLeft(line) == line;
    assert TrimSpace(line) == key + "=" + TrimRight(value);
    CutAtFirst(key, TrimRight(value));
    assert TrimSpace(line)[0] == key[0];
  }

  lemma HeaderLine(h: string)
    requires h != "" && h[0] == '#'
    ensures ParseLine(h) == None
  {
    assert TrimLeft(h) == h;
    TrimRightPrefix(h);
    if TrimRight(h) != "" {
      assert TrimRight(h)[0] == '#';
    }
  }

  // No parsed value spans lines.
  lemma CutParts(line: string, c: char)
    requires c !in line && Cut(line).Some?
    ensures c !in Cut(line).value.1
  {
    if line[0] != '=' {
      CutParts(line[1..], c);
    }
  }

  lemma {:induction false} ValuesAreOneLine(env: Env, lines: seq<string>, key: string)
    requires forall i :: 0 <= i < |lines| ==> '\n' !in lines[i]
    requires key in env ==> '\n' !in env[key]
    ensures key in WithLines(env, lines) ==> '\n' !in WithLines(env, lines)[key]
    decreases |lines|
  {
    if lines != [] {
      var line := TrimSpace(lines[0]);
      TrimKeepsOut(lines[0], '\n');
      if line != "" && line[0] != '#' && Cut(line).Some? {
        CutParts(line, '\n');
        TrimKeepsOut(Cut(line).value.1, '\n');
      }
      ValuesAreOneLine(WithLine(env, lines[0]), lines[1..], key);
    }
  }
}
