// The S3 mirror: object keys, UploadMany and DeleteMany.
module Mirror {
  import opened Text
  import opened Names
  import opened Registry
  import opened BackupNames
  import opened Retention
  import opened Backup

  // -------------------------------------------------------------------- keys

  // strings.Trim(s, "/").
  function TrimSlashes(s: string): string
  {
    if s != "" && s[0] == '/' then TrimSlashes(s[1..])
    else if s != "" && s[|s| - 1] == '/' then TrimSlashes(s[..|s| - 1])
    else s
  }

  // The lexical processing of path.Clean on a relative path: empty and "."
  // elements vanish, ".." takes back the element before it.
  function Cleaned(parts: seq<string>, stack: seq<string>): seq<string>
    decreases |parts|
  {
    if parts == [] then stack
    else if parts[0] == "" || parts[0] == "." then Cleaned(parts[1..], stack)
    else if parts[0] == ".." && stack != [] && stack[|stack| - 1] != ".." then
      Cleaned(parts[1..], stack[..|stack| - 1])
    else Cleaned(parts[1..], stack + [parts[0]])
  }

  // path.Join of the non-empty elements, for a path that is not rooted.
  function Key(prefix: string, app: string, name: string): string
  {
    var p := TrimSlashes(prefix);
    var joined := (if p == "" then "" else p + "/") + app + "/" + name;
    Join(Cleaned(Split(joined, '/'), []), "/")
  }

  predicate PathElement(s: string)
  {
    s != "" && s != "." && s != ".." && '/' !in s
  }

  lemma {:induction false} CleanedConcat(a: seq<string>, b: seq<string>, stack: seq<string>)
    ensures Cleaned(a + b, stack) == Cleaned(b, Cleaned(a, stack))
    decreases |a|
  {
    if a == [] {
      assert a + b == b;
    } else {
      assert (a + b)[1..] == a[1..] + b;
      if a[0] == "" || a[0] == "." {
        CleanedConcat(a[1..], b, stack);
      } else if a[0] == ".." && stack != [] && stack[|stack| - 1] != ".." {
        CleanedConcat(a[1..], b, stack[..|stack| - 1]);
      } else {
        CleanedConcat(a[1..], b, stack + [a[0]]);
      }
    }
  }

  lemma CleanedPlain(x: string, y: string, stack: seq<string>)
    requires PathElement(x) && PathElement(y)
    ensures Cleaned([x, y], stack) == stack + [x, y]
  {
    assert [x, y][1..] == [y] && [y][1..] == [];
    assert Cleaned([x, y], stack) == Cleaned([y], stack + [x]);
    assert Cleaned([y], stack + [x]) == Cleaned([], stack + [x] + [y]);
    assert stack + [x] + [y] == stack + [x, y];
  }

  // The key is the cleaned prefix followed by the app and the file name.
  lemma KeyParts(prefix: string, app: string, name: string)
    requires PathElement(app) && PathElement(name)
    ensures Key(prefix, app, name) == Join(Cleaned(Split(TrimSlashes(prefix), '/'), []) + [app, name], "/")
  {
    var p := TrimSlashes(prefix);
    TailParts(app, name);
    if p == "" {
      assert "" + app + "/" + name == app + "/" + name;
      CleanedPlain(app, name, []);
    } else {
      UnderPrefix(p, app, name);
    }
  }

  lemma TailParts(app: string, name: string)
    requires PathElement(app) && PathElement(name)
    ensures Split(app + "/" + name, '/') == [app, name]
  {
    SplitConcat(app, name, '/');
    SplitWhole(app, '/');
    SplitWhole(name, '/');
  }

  lemma UnderPrefix(p: string, app: string, name: string)
    requires PathElement(app) && PathElement(name)
    ensures Cleaned(Split(p + "/" + app + "/" + name, '/'), []) == Cleaned(Split(p, '/'), []) + [app, name]
  {
    TailParts(app, name);
    var parts := Split(p, '/');
    assert p + "/" + app + "/" + name == p + "/" + (app + "/" + name);
    SplitConcat(p, app + "/" + name, '/');
    CleanedConcat(parts, [app, name], []);
    CleanedPlain(app, name, Cleaned(parts, []));
  }

  lemma {:induction false} CleanedLacksSlash(parts: seq<string>, stack: seq<string>)
    requires forall i :: 0 <= i < |parts| ==> '/' !in parts[i]
    requires forall i :: 0 <= i < |stack| ==> '/' !in stack[i]
    ensures forall i :: 0 <= i < |Cleaned(parts, stack)| ==> '/' !in Cleaned(parts, stack)[i]
    decreases |parts|
  {
    if parts != [] {
      if parts[0] == "" || parts[0] == "." {
        CleanedLacksSlash(parts[1..], stack);
      } else if parts[0] == ".." && stack != [] && stack[|stack| - 1] != ".." {
        CleanedLacksSlash(parts[1..], stack[..|stack| - 1]);
      } else {
        CleanedLacksSlash(parts[1..], stack + [parts[0]]);
      }
    }
  }

  // One object per file: keys of different files differ.
  lemma KeyIsInjective(prefix: string, a1: string, n1: string, a2: string, n2: string)
    requires PathElement(a1) && PathElement(n1) && PathElement(a2) && PathElement(n2)
    requires Key(prefix, a1, n1) == Key(prefix, a2, n2)
    ensures a1 == a2 && n1 == n2
  {
    KeyParts(prefix, a1, n1);
    KeyParts(prefix, a2, n2);
    var s := Cleaned(Split(TrimSlashes(prefix), '/'), []);
    CleanedLacksSlash(Split(TrimSlashes(prefix), '/'), []);
    SplitJoin(s + [a1, n1], '/');
    SplitJoin(s + [a2, n2], '/');
    assert (s + [a1, n1])[|s|] == (s + [a2, n2])[|s|];
    assert (s + [a1, n1])[|s| + 1] == (s + [a2, n2])[|s| + 1];
  }
}
