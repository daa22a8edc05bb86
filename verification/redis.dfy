// The Redis snapshot (a Lua script over one key namespace) and its replay.
module RedisSnapshot {
  import opened Text
  import opened Names
  import opened Brokers

  // The score of a sorted-set member is kept as the text Redis prints.
  datatype Value =
    | Str(text: string)
    | Hash(fields: map<string, string>)
    | List(items: seq<string>)
    | Set(members: set<string>)
    | ZSet(scores: map<string, string>)
    | Other(kind: string)

  type Keyspace = map<string, Value>

  function TypeOf(v: Value): string
  {
    match v
    case Str(_) => "string"
    case Hash(_) => "hash"
    case List(_) => "list"
    case Set(_) => "set"
    case ZSet(_) => "zset"
    case Other(kind) => kind
  }

  const KINDS: set<string> := {"string", "hash", "list", "set", "zset"}

  // Redis never stores an empty collection, and a stream or module type has a
  // type name of its own.
  predicate Stored(v: Value)
  {
    match v
    case Str(_) => true
    case Hash(fields) => fields != map[]
    case List(items) => items != []
    case Set(members) => members != {}
    case ZSet(scores) => scores != map[]
    case Other(kind) => kind !in KINDS
  }

  predicate WellFormed(ks: Keyspace)
  {
    forall k :: k in ks ==> Stored(ks[k])
  }

  datatype Json =
    | JNull
    | JString(s: string)
    | JNumber(text: string)
    | JArray(items: seq<Json>)
    | JObject(members: map<string, Json>)

  // cjson encodes an empty Lua table as an object.
  function LuaTable(items: seq<Json>): Json
  {
    if items == [] then JObject(map[]) else JArray(items)
  }

  function Strings(items: seq<string>): seq<Json>
  {
    seq(|items|, i requires 0 <= i < |items| => JString(items[i]))
  }

  // field, value, field, value, ...; a later pair wins.
  function FlatMap(flat: seq<string>): map<string, string>
  {
    if |flat| < 2 then map[] else map[flat[0] := flat[1]] + FlatMap(flat[2..])
  }

  lemma {:induction false} PairsSnoc(flat: seq<string>, f: string, v: string)
    requires |flat| % 2 == 0
    ensures FlatMap(flat + [f, v]) == FlatMap(flat)[f := v]
    decreases |flat|
  {
    if flat == [] {
      assert flat + [f, v] == [f, v] && [f, v][2..] == [];
    } else {
      assert (flat + [f, v])[2..] == flat[2..] + [f, v];
      PairsSnoc(flat[2..], f, v);
    }
  }

  // ----------------------------------------------------------------- snapshot

  // `val` is what the script's read command returns for `v`, in some order.
  ghost predicate Encodes(v: Value, val: Json)
  {
    match v
    case Str(text) => val == JString(text)
    case Hash(fields) => exists flat :: |flat| % 2 == 0 && FlatMap(flat) == fields && val == LuaTable(Strings(flat))
    case List(items) => val == LuaTable(Strings(items))
    case Set(members) => exists order :: (forall x :: x in order <==> x in members) && val == LuaTable(Strings(order))
    case ZSet(scores) => exists flat :: |flat| % 2 == 0 && FlatMap(flat) == scores && val == LuaTable(Strings(flat))
    case Other(_) => val == JNull
  }

  // A trailing nil shortens the Lua table.
  function Triple(key: string, kind: string, val: Json): Json
  {
    JArray([JString(key), JString(kind)] + if val == JNull then [] else [val])
  }

  function InNamespace(ks: Keyspace, app: string): set<string>
  {
    set k | k in ks && Glob(app + ":*", k)
  }

  datatype Entry = Entry(key: string, kind: string, val: Json)

  function Rows(es: seq<Entry>): seq<Json>
  {
    seq(|es|, i requires 0 <= i < |es| => Triple(es[i].key, es[i].kind, es[i].val))
  }

  // One entry per key of the namespace, in any order.
  ghost predicate IsSnapshot(ks: Keyspace, app: string, es: seq<Entry>)
  {
    && (forall i, j :: 0 <= i < j < |es| ==> es[i].key != es[j].key)
    && (forall k :: k in InNamespace(ks, app) <==> exists i :: 0 <= i < |es| && es[i].key == k)
    && (forall i :: 0 <= i < |es| ==> es[i].key in ks && EntryOf(ks[es[i].key], es[i]))
  }

  ghost predicate EntryOf(v: Value, e: Entry)
  {
    e.kind == TypeOf(v) && Encodes(v, e.val)
  }

  // ------------------------------------------------------------------- replay

  // One admin command on one key; None is Redis' error reply.
  function HSet(ks: Keyspace, key: string, args: seq<string>): Option<Keyspace>
  {
    if args == [] || |args| % 2 == 1 || (key in ks && !ks[key].Hash?) then None
    else Some(ks[key := Hash((if key in ks then ks[key].fields else map[]) + FlatMap(args))])
  }

  function RPush(ks: Keyspace, key: string, args: seq<string>): Option<Keyspace>
  {
    if args == [] || (key in ks && !ks[key].List?) then None
    else Some(ks[key := List((if key in ks then ks[key].items else []) + args)])
  }

  function SAdd(ks: Keyspace, key: string, args: seq<string>): Option<Keyspace>
  {
    if args == [] || (key in ks && !ks[key].Set?) then None
    else Some(ks[key := Set((if key in ks then ks[key].members else {}) + set x | x in args)])
  }

  // ZADD reads score, member, score, member, ...
  function Scores(args: seq<string>): map<string, string>
  {
    if |args| < 2 then map[] else map[args[1] := args[0]] + Scores(args[2..])
  }

  function ZAdd(ks: Keyspace, key: string, args: seq<string>): Option<Keyspace>
  {
    if args == [] || |args| % 2 == 1 || (key in ks && !ks[key].ZSet?) then None
    else Some(ks[key := ZSet((if key in ks then ks[key].scores else map[]) + Scores(args))])
  }

  function ScoreFirst(pairs: seq<string>): seq<string>
  {
    if |pairs| < 2 then [] else [pairs[1], pairs[0]] + ScoreFirst(pairs[2..])
  }

  // The order swap of restoreEntry keeps every member with its own score.
  lemma {:induction false} SwapKeepsPairing(pairs: seq<string>)
    ensures Scores(ScoreFirst(pairs)) == FlatMap(pairs)
    ensures |ScoreFirst(pairs)| == |pairs| - |pairs| % 2
    decreases |pairs|
  {
    if |pairs| >= 2 {
      SwapKeepsPairing(pairs[2..]);
      assert ScoreFirst(pairs)[2..] == ScoreFirst(pairs[2..]);
    }
  }

  function Show(j: Json): string
  {
    match j
    case JString(s) => s
    case JNumber(text) => text
    case JNull => "<nil>"
    case JArray(_) => "[...]"
    case JObject(_) => "map[...]"
  }

  // stringSlice: anything that is not an array counts as empty.
  function StringSlice(val: Json): seq<string>
  {
    if val.JArray? then seq(|val.items|, i requires 0 <= i < |val.items| => Show(val.items[i])) else []
  }

  lemma StringSliceOfTable(items: seq<string>)
    ensures StringSlice(LuaTable(Strings(items))) == items
  {
  }

  // restoreEntry as one function: an unknown type, or an empty list, set or
  // sorted set, is skipped.
  function RestoreEntry(ks: Keyspace, e: Entry): Option<Keyspace>
  {
    var items := StringSlice(e.val);
    if e.kind == "string" then Some(ks[e.key := Str(if e.val.JString? then e.val.s else "")])
    else if e.kind == "hash" then HSet(ks, e.key, items)
    else if e.kind == "list" then if items == [] then Some(ks) else RPush(ks, e.key, items)
    else if e.kind == "set" then if items == [] then Some(ks) else SAdd(ks, e.key, items)
    else if e.kind == "zset" then if |items| < 2 then Some(ks) else ZAdd(ks, e.key, ScoreFirst(items))
    else Some(ks)
  }

  // Whether restoreEntry sends a command at all.
  predicate Sends(e: Entry)
  {
    var items := StringSlice(e.val);
    e.kind == "string" || e.kind == "hash" || ((e.kind == "list" || e.kind == "set") && items != [])
    || (e.kind == "zset" && |items| >= 2)
  }

  datatype Replay = Replay(ks: Keyspace, ok: bool)

  // One entry. `strict` says whether redis-cli turns an error reply into a
  // failing exit status; without its -e flag, which the program does not pass,
  // it does not.
  function RestoreOne(ks: Keyspace, e: Entry, d: Fate, strict: bool): Replay
  {
    var after := RestoreEntry(ks, e);
    if !Sends(e) then Replay(ks, true)
    else match d
      case Answered => if after.Some? then Replay(after.value, true) else Replay(ks, !strict)
      case Unreached => Replay(ks, false)
      case Lost => Replay(if after.Some? then after.value else ks, false)
      case Rejected => Replay(ks, !strict)
  }

  // The first failure the program sees ends the replay.
  function RestoreAll(ks: Keyspace, es: seq<Entry>, way: Fates, n: nat, strict: bool): Replay
    decreases |es|
  {
    if es == [] then Replay(ks, true)
    else
      var r := RestoreOne(ks, es[0], way(n), strict);
      if r.ok then RestoreAll(r.ks, es[1..], way, n + 1, strict) else r
  }

  // Decoding one [key, type, value] triple into [3]any.
  function ParseEntry(j: Json): Option<Entry>
  {
    if !j.JArray? || |j.items| < 2 || !j.items[0].JString? || !j.items[1].JString? then None
    else Some(Entry(j.items[0].s, j.items[1].s, if |j.items| > 2 then j.items[2] else JNull))
  }

  function ParseEntries(rows: seq<Json>): Option<seq<Entry>>
  {
    if rows == [] then Some([])
    else
      var head, tail := ParseEntry(rows[0]), ParseEntries(rows[1..]);
      if head.Some? && tail.Some? then Some([head.value] + tail.value) else None
  }

  function RestoreDocument(ks: Keyspace, doc: Json, way: Fates, strict: bool): Replay
  {
    if doc == JObject(map[]) || doc == JArray([]) then Replay(ks, true)
    else if !doc.JArray? || ParseEntries(doc.items).None? then Replay(ks, false)
    else RestoreAll(ks, ParseEntries(doc.items).value, way, 0, strict)
  }

  // ------------------------------------------------------------ the backup file

  // What Backup writes: the document, or the text of an error reply that
  // redis-cli printed with exit status 0.
  datatype Content = Document(doc: Json) | ErrorText

  // What the EVAL and the write leave; None when Backup returns an error.
  ghost predicate Wrote(ks: Keyspace, app: string, fate: Fate, strict: bool, file: Option<Content>)
  {
    match fate
    case Answered => exists es :: IsSnapshot(ks, app, es) && file == Some(Document(LuaTable(Rows(es))))
    case Rejected => file == if strict then None else Some(ErrorText)
    case _ => file == None
  }

  // Restore parses the file first; the text of an error reply is no JSON.
  function RestoreFile(ks: Keyspace, file: Content, way: Fates, strict: bool): Replay
  {
    match file
    case Document(doc) => RestoreDocument(ks, doc, way, strict)
    case ErrorText => Replay(ks, false)
  }

  // ------------------------------------------------------- the server, stepwise

  class Redis {
    var ks: Keyspace

    method Backup(app: string, fate: Fate, strict: bool) returns (file: Option<Content>)
      ensures Wrote(ks, app, fate, strict, file)
    {
      match fate {
        case Answered =>
          var doc := Script(app);
          file := Some(Document(doc));
        case Rejected => file := if strict then None else Some(ErrorText);
        case _ => file := None;
      }
    }

    // backupScript: KEYS, then one read per key, then cjson.encode.
    method Script(app: string) returns (doc: Json)
      ensures exists es :: IsSnapshot(ks, app, es) && doc == LuaTable(Rows(es))
    {
      var keys := InNamespace(ks, app);
      var left := keys;
      ghost var es: seq<Entry> := [];
      var result: seq<Json> := [];
      while left != {}
        invariant left <= keys
        invariant forall i, j :: 0 <= i < j < |es| ==> es[i].key != es[j].key
        invariant forall k :: k in keys && k !in left <==> exists i :: 0 <= i < |es| && es[i].key == k
        invariant forall i :: 0 <= i < |es| ==> es[i].key in ks && EntryOf(ks[es[i].key], es[i])
        invariant result == Rows(es)
        decreases |left|
      {
        var key :| key in left;
        left := left - {key};
        var val := Read(ks[key]);
        ghost var es0 := es;
        es := es + [Entry(key, TypeOf(ks[key]), val)];
        assert es[|es0|].key == key;
        assert forall i :: 0 <= i < |es0| ==> es[i] == es0[i];
        result := result + [Triple(key, TypeOf(ks[key]), val)];
        assert result == Rows(es);
      }
      assert IsSnapshot(ks, app, es);
      doc := LuaTable(result);
    }

    // GET, HGETALL, LRANGE, SMEMBERS or ZRANGE WITHSCORES by type.
    method Read(v: Value) returns (val: Json)
      ensures Encodes(v, val)
    {
      match v {
        case Str(text) => val := JString(text);
        case Hash(fields) =>
          var flat := Flatten(fields);
          val := LuaTable(Strings(flat));
        case List(items) => val := LuaTable(Strings(items));
        case Set(members) =>
          var order := Enumerate(members);
          val := LuaTable(Strings(order));
        case ZSet(scores) =>
          var flat := Flatten(scores);
          val := LuaTable(Strings(flat));
        case Other(_) => val := JNull;
      }
    }

    method Flatten(m: map<string, string>) returns (flat: seq<string>)
      ensures |flat| % 2 == 0 && FlatMap(flat) == m
    {
      flat := [];
      var left := m.Keys;
      while left != {}
        invariant left <= m.Keys && |flat| % 2 == 0
        invariant FlatMap(flat) == map k | k in m && k !in left :: m[k]
        decreases |left|
      {
        var k :| k in left;
        PairsSnoc(flat, k, m[k]);
        left := left - {k};
        flat := flat + [k, m[k]];
      }
    }

    method Enumerate(s: set<string>) returns (order: seq<string>)
      ensures forall x :: x in order <==> x in s
    {
      order := [];
      var left := s;
      while left != {}
        invariant left <= s && forall x :: x in order <==> x in s && x !in left
        decreases |left|
      {
        var x :| x in left;
        left := left - {x};
        order := order + [x];
      }
    }

    method Restore(file: Content, way: Fates, strict: bool) returns (ok: bool)
      modifies this
      ensures Replay(ks, ok) == RestoreFile(old(ks), file, way, strict)
    {
      if file.ErrorText? {
        return false;
      }
      var doc := file.doc;
      if doc == JObject(map[]) || doc == JArray([]) {
        return true;
      }
      if !doc.JArray? || ParseEntries(doc.items).None? {
        return false;
      }
      var es := ParseEntries(doc.items).value;
      var i := 0;
      while i < |es|
        invariant 0 <= i <= |es|
        invariant RestoreAll(ks, es[i..], way, i, strict) == RestoreAll(old(ks), es, way, 0, strict)
      {
        assert es[i..][1..] == es[i + 1..];
        var done := ReplayEntry(es[i], way(i), strict);
        if !done {
          return false;
        }
        i := i + 1;
      }
      return true;
    }

    // restoreEntry: build the arguments, send one command.
    method ReplayEntry(e: Entry, d: Fate, strict: bool) returns (ok: bool)
      modifies this
      ensures Replay(ks, ok) == RestoreOne(old(ks), e, d, strict)
    {
      ok := true;
      if e.kind == "string" {
        ok := Admin(Some(ks[e.key := Str(if e.val.JString? then e.val.s else "")]), d, strict);
      } else if e.kind == "hash" {
        ok := Admin(HSet(ks, e.key, StringSlice(e.val)), d, strict);
      } else if e.kind == "list" {
        var items := StringSlice(e.val);
        if |items| != 0 {
          ok := Admin(RPush(ks, e.key, items), d, strict);
        }
      } else if e.kind == "set" {
        var items := StringSlice(e.val);
        if |items| != 0 {
          ok := Admin(SAdd(ks, e.key, items), d, strict);
        }
      } else if e.kind == "zset" {
        var args := ScoreArgs(StringSlice(e.val));
        SwapKeepsPairing(StringSlice(e.val));
        if |args| != 0 {
          ok := Admin(ZAdd(ks, e.key, args), d, strict);
        }
      }
    }

    // adminCli: `after` is the state Redis goes to, None its error reply.
    method Admin(after: Option<Keyspace>, d: Fate, strict: bool) returns (ok: bool)
      modifies this
      ensures ok == (if d.Answered? then after.Some? || !strict else d.Rejected? && !strict)
      ensures ks == if after.Some? && (d.Answered? || d.Lost?) then after.value else old(ks)
    {
      if after.Some? && (d.Answered? || d.Lost?) {
        ks := after.value;
      }
      ok := if d.Answered? then after.Some? || !strict else d.Rejected? && !strict;
    }

    // The pair loop of the zset case.
    method ScoreArgs(pairs: seq<string>) returns (args: seq<string>)
      ensures args == ScoreFirst(pairs)
    {
      args := [];
      var i := 0;
      while i + 1 < |pairs|
        invariant 0 <= i <= |pairs|
        invariant args + ScoreFirst(pairs[i..]) == ScoreFirst(pairs)
      {
        assert pairs[i..][2..] == pairs[i + 2..];
        args := args + [pairs[i + 1], pairs[i]];
        i := i + 2;
      }
    }
  }

  // ------------------------------------------------------ replay and snapshot

  lemma {:induction false} SnapshotParses(es: seq<Entry>)
    ensures ParseEntries(Rows(es)) == Some(es)
    decreases |es|
  {
    if es != [] {
      SnapshotParses(es[1..]);
      assert Rows(es)[1..] == Rows(es[1..]);
      assert [es[0]] + es[1..] == es;
    }
  }

  function Get(ks: Keyspace, k: string): Option<Value>
  {
    if k in ks then Some(ks[k]) else None
  }

  // What a key holds after the snapshot value `v` was replayed over `before`:
  // strings are overwritten, hashes and sorted sets merge with the snapshot
  // winning, sets unite, lists become existing followed by snapshot, and a
  // type the snapshot cannot express is left as it was.
  function Merged(before: Option<Value>, v: Value): Option<Value>
  {
    match v
    case Str(text) => Some(Str(text))
    case Hash(fields) =>
      Some(Hash((if before.Some? && before.value.Hash? then before.value.fields else map[]) + fields))
    case List(items) => Some(List((if before.Some? && before.value.List? then before.value.items else []) + items))
    case Set(members) => Some(Set((if before.Some? && before.value.Set? then before.value.members else {}) + members))
    case ZSet(scores) =>
      Some(ZSet((if before.Some? && before.value.ZSet? then before.value.scores else map[]) + scores))
    case Other(_) => before
  }

  // No collection of the snapshot meets a key of another type.
  predicate Compatible(before: Option<Value>, v: Value)
  {
    before.None? || match v
      case Str(_) => true
      case Hash(_) => before.value.Hash?
      case List(_) => before.value.List?
      case Set(_) => before.value.Set?
      case ZSet(_) => before.value.ZSet?
      case Other(_) => true
  }

  // The effect of one entry on its own key and on no other.
  ghost predicate HasEffect(ks: Keyspace, v: Value, key: string, after: Option<Keyspace>)
  {
    && (Compatible(Get(ks, key), v) <==> after.Some?)
    && (after.Some? ==> Get(after.value, key) == Merged(Get(ks, key), v))
    && (after.Some? ==> forall k :: k != key ==> Get(after.value, k) == Get(ks, k))
  }

  lemma HashEffect(ks: Keyspace, fields: map<string, string>, e: Entry)
    requires fields != map[] && EntryOf(Hash(fields), e)
    ensures HasEffect(ks, Hash(fields), e.key, RestoreEntry(ks, e))
  {
    var flat :| |flat| % 2 == 0 && FlatMap(flat) == fields && e.val == LuaTable(Strings(flat));
    StringSliceOfTable(flat);
    assert flat != [];
  }

  lemma ListEffect(ks: Keyspace, items: seq<string>, e: Entry)
    requires items != [] && EntryOf(List(items), e)
    ensures HasEffect(ks, List(items), e.key, RestoreEntry(ks, e))
  {
    StringSliceOfTable(items);
  }

  lemma SetEffect(ks: Keyspace, members: set<string>, e: Entry)
    requires members != {} && EntryOf(Set(members), e)
    ensures HasEffect(ks, Set(members), e.key, RestoreEntry(ks, e))
  {
    var order :| (forall x :: x in order <==> x in members) && e.val == LuaTable(Strings(order));
    StringSliceOfTable(order);
    assert order != [];
    assert (set x | x in order) == members;
  }

  lemma ZSetEffect(ks: Keyspace, scores: map<string, string>, e: Entry)
    requires scores != map[] && EntryOf(ZSet(scores), e)
    ensures HasEffect(ks, ZSet(scores), e.key, RestoreEntry(ks, e))
  {
    var flat :| |flat| % 2 == 0 && FlatMap(flat) == scores && e.val == LuaTable(Strings(flat));
    StringSliceOfTable(flat);
    SwapKeepsPairing(flat);
    assert flat != [];
    assert RestoreEntry(ks, e) == ZAdd(ks, e.key, ScoreFirst(flat));
  }

  lemma UnreadEffect(ks: Keyspace, v: Value, e: Entry)
    requires v.Other? && Stored(v) && EntryOf(v, e)
    ensures HasEffect(ks, v, e.key, RestoreEntry(ks, e))
  {
  }

  lemma StringEffect(ks: Keyspace, v: Value, e: Entry)
    requires v.Str? && EntryOf(v, e)
    ensures HasEffect(ks, v, e.key, RestoreEntry(ks, e))
  {
  }

  lemma EntryEffect(ks: Keyspace, v: Value, e: Entry)
    requires Stored(v) && EntryOf(v, e)
    ensures HasEffect(ks, v, e.key, RestoreEntry(ks, e))
  {
    match v
    case Str(_) => StringEffect(ks, v, e);
    case Hash(fields) => HashEffect(ks, fields, e);
    case List(items) => ListEffect(ks, items, e);
    case Set(members) => SetEffect(ks, members, e);
    case ZSet(scores) => ZSetEffect(ks, scores, e);
    case Other(_) => UnreadEffect(ks, v, e);
  }

  ghost predicate From(src: Keyspace, es: seq<Entry>)
  {
    && (forall i, j :: 0 <= i < j < |es| ==> es[i].key != es[j].key)
    && (forall i :: 0 <= i < |es| ==> es[i].key in src && EntryOf(src[es[i].key], es[i]))
  }

  predicate HasEntry(es: seq<Entry>, k: string)
  {
    exists i :: 0 <= i < |es| && es[i].key == k
  }

  // An entry reaches its key: Redis does not reject it and the types agree.
  predicate Lands(cur: Keyspace, e: Entry, v: Value, d: Fate)
  {
    Compatible(Get(cur, e.key), v) && (Sends(e) ==> !d.Rejected?)
  }

  // What the entry's key holds after a replay that went through.
  function Landed(cur: Keyspace, e: Entry, v: Value, d: Fate): Option<Value>
  {
    if Lands(cur, e, v, d) then Merged(Get(cur, e.key), v) else Get(cur, e.key)
  }

  lemma LandedIsLocal(cur: Keyspace, mid: Keyspace, e: Entry, v: Value, d: Fate)
    requires Get(mid, e.key) == Get(cur, e.key)
    ensures Landed(mid, e, v, d) == Landed(cur, e, v, d)
  {
  }

  // Whatever goes wrong, keys without an entry are never touched.
  lemma {:induction false} ReplaySpares(
      cur: Keyspace, es: seq<Entry>, src: Keyspace, way: Fates, n: nat, strict: bool, k: string)
    requires WellFormed(src) && From(src, es) && !HasEntry(es, k)
    ensures Get(RestoreAll(cur, es, way, n, strict).ks, k) == Get(cur, k)
    decreases |es|
  {
    if es != [] {
      OneEffect(cur, src[es[0].key], es[0], way(n), strict);
      assert es[0].key != k && !HasEntry(es[1..], k);
      var one := RestoreOne(cur, es[0], way(n), strict);
      if one.ok {
        ReplaySpares(one.ks, es[1..], src, way, n + 1, strict, k);
      }
    }
  }

  // After a replay that went through, an entry that landed has had its full
  // effect, and the key of any other has its old value.
  lemma {:induction false} ReplayEffect(
      cur: Keyspace, es: seq<Entry>, src: Keyspace, way: Fates, n: nat, strict: bool, i: nat)
    requires WellFormed(src) && From(src, es) && i < |es| && RestoreAll(cur, es, way, n, strict).ok
    ensures Get(RestoreAll(cur, es, way, n, strict).ks, es[i].key) == Landed(cur, es[i], src[es[i].key], way(n + i))
    decreases |es|
  {
    var one, rest := RestoreOne(cur, es[0], way(n), strict), es[1..];
    var e := es[i];
    OneEffect(cur, src[es[0].key], es[0], way(n), strict);
    GoesOn(cur, es, way, n, strict);
    FromTail(src, es);
    if i == 0 {
      ReplaySpares(one.ks, rest, src, way, n + 1, strict, e.key);
    } else {
      assert rest[i - 1] == e && n + 1 + (i - 1) == n + i;
      ReplayEffect(one.ks, rest, src, way, n + 1, strict, i - 1);
      LandedIsLocal(cur, one.ks, e, src[e.key], way(n + i));
    }
  }

  lemma FromTail(src: Keyspace, es: seq<Entry>)
    requires From(src, es) && es != []
    ensures From(src, es[1..]) && !HasEntry(es[1..], es[0].key)
    ensures forall i :: 1 <= i < |es| ==> es[i].key != es[0].key
  {
  }

  lemma GoesOn(cur: Keyspace, es: seq<Entry>, way: Fates, n: nat, strict: bool)
    requires es != [] && RestoreAll(cur, es, way, n, strict).ok
    ensures var one := RestoreOne(cur, es[0], way(n), strict);
      one.ok && RestoreAll(cur, es, way, n, strict) == RestoreAll(one.ks, es[1..], way, n + 1, strict)
  {
  }

  lemma OneEffect(ks: Keyspace, v: Value, e: Entry, d: Fate, strict: bool)
    requires Stored(v) && EntryOf(v, e)
    ensures var r := RestoreOne(ks, e, d, strict);
      && (forall k :: k != e.key ==> Get(r.ks, k) == Get(ks, k))
      && (r.ok ==> Get(r.ks, e.key) == Landed(ks, e, v, d))
      && (r.ok <==> Goes(ks, e, v, d, strict))
  {
    EntryEffect(ks, v, e);
    if !Sends(e) {
      SilentEntryIsNeutral(ks, v, e);
    }
  }

  // An entry that sends nothing has nothing to merge.
  lemma SilentEntryIsNeutral(ks: Keyspace, v: Value, e: Entry)
    requires Stored(v) && EntryOf(v, e) && !Sends(e)
    ensures Compatible(Get(ks, e.key), v) && Merged(Get(ks, e.key), v) == Get(ks, e.key)
  {
  }

  // The program sees no failure of an entry.
  predicate Goes(cur: Keyspace, e: Entry, v: Value, d: Fate, strict: bool)
  {
    Sends(e) ==> (d.Answered? && (strict ==> Compatible(Get(cur, e.key), v))) || (d.Rejected? && !strict)
  }

  ghost predicate AllGo(cur: Keyspace, es: seq<Entry>, src: Keyspace, way: Fates, n: nat, strict: bool)
    requires From(src, es)
  {
    forall i :: 0 <= i < |es| ==> Goes(cur, es[i], src[es[i].key], way(n + i), strict)
  }

  // A replay reports success exactly when every command is taken and, if
  // error replies count as failures, none meets a key of another type.
  lemma {:induction false} ReplaySucceedsIff(
      cur: Keyspace, es: seq<Entry>, src: Keyspace, way: Fates, n: nat, strict: bool)
    requires WellFormed(src) && From(src, es)
    ensures RestoreAll(cur, es, way, n, strict).ok <==> AllGo(cur, es, src, way, n, strict)
    decreases |es|
  {
    if es != [] {
      var e, rest := es[0], es[1..];
      OneEffect(cur, src[e.key], e, way(n), strict);
      var one := RestoreOne(cur, e, way(n), strict);
      if one.ok {
        ReplaySucceedsIff(one.ks, rest, src, way, n + 1, strict);
        AllGoTail(cur, one.ks, es, src, way, n, strict);
      }
    }
  }

  lemma AllGoTail(
      cur: Keyspace, mid: Keyspace, es: seq<Entry>, src: Keyspace, way: Fates, n: nat, strict: bool)
    requires es != [] && From(src, es) && Goes(cur, es[0], src[es[0].key], way(n), strict)
    requires forall k :: k != es[0].key ==> Get(mid, k) == Get(cur, k)
    ensures AllGo(mid, es[1..], src, way, n + 1, strict) <==> AllGo(cur, es, src, way, n, strict)
  {
    var rest := es[1..];
    forall i | 1 <= i < |es|
      ensures Goes(mid, rest[i - 1], src[rest[i - 1].key], way(n + 1 + (i - 1)), strict)
        <==> Goes(cur, es[i], src[es[i].key], way(n + i), strict)
    {
      assert rest[i - 1] == es[i] && es[i].key != es[0].key && n + 1 + (i - 1) == n + i;
    }
    if AllGo(mid, rest, src, way, n + 1, strict) {
      forall i | 0 <= i < |es|
        ensures Goes(cur, es[i], src[es[i].key], way(n + i), strict)
      {
        if i > 0 {
          assert Goes(mid, rest[i - 1], src[rest[i - 1].key], way(n + 1 + (i - 1)), strict);
        }
      }
    }
    if AllGo(cur, es, src, way, n, strict) {
      forall i | 0 <= i < |rest|
        ensures Goes(mid, rest[i], src[rest[i].key], way(n + 1 + i), strict)
      {
        assert Goes(cur, es[i + 1], src[es[i + 1].key], way(n + (i + 1)), strict);
      }
    }
  }

  // Restoring a backup over any keyspace, when every command reaches Redis:
  // every key of the namespace whose type agrees is merged, a key of another
  // type keeps its value, and no other key is touched. Where redis-cli reports
  // error replies the replay fails exactly on such a clash; where it does not,
  // the replay reports success all the same.
  lemma RestoreMerges(ks: Keyspace, app: string, es: seq<Entry>, before: Keyspace, way: Fates, strict: bool)
    requires WellFormed(ks) && WellFormed(before) && IsSnapshot(ks, app, es) && forall n :: way(n) == Answered
    ensures var r := RestoreDocument(before, LuaTable(Rows(es)), way, strict);
      && (r.ok <==> (strict ==> forall k :: k in InNamespace(ks, app) ==> Compatible(Get(before, k), ks[k])))
      && (r.ok ==> forall k :: k in InNamespace(ks, app) ==>
            Get(r.ks, k) == if Compatible(Get(before, k), ks[k]) then Merged(Get(before, k), ks[k]) else Get(before, k))
      && (forall k :: k !in InNamespace(ks, app) ==> Get(r.ks, k) == Get(before, k))
  {
    RestoreIsReplay(before, es, way, strict);
    ReplaySucceedsIff(before, es, ks, way, 0, strict);
    AllTakenGoIff(ks, app, es, before, way, strict);
    var r := RestoreDocument(before, LuaTable(Rows(es)), way, strict);
    forall k
      ensures k !in InNamespace(ks, app) ==> Get(r.ks, k) == Get(before, k)
      ensures r.ok && k in InNamespace(ks, app) ==>
        Get(r.ks, k) == if Compatible(Get(before, k), ks[k]) then Merged(Get(before, k), ks[k]) else Get(before, k)
    {
      assert HasEntry(es, k) <==> k in InNamespace(ks, app);
      if HasEntry(es, k) {
        if r.ok {
          var i :| 0 <= i < |es| && es[i].key == k;
          ReplayEffect(before, es, ks, way, 0, strict, i);
        }
      } else {
        ReplaySpares(before, es, ks, way, 0, strict, k);
      }
    }
  }

  lemma AllTakenGoIff(ks: Keyspace, app: string, es: seq<Entry>, before: Keyspace, way: Fates, strict: bool)
    requires WellFormed(ks) && IsSnapshot(ks, app, es) && forall n :: way(n) == Answered
    ensures AllGo(before, es, ks, way, 0, strict)
      <==> (strict ==> forall k :: k in InNamespace(ks, app) ==> Compatible(Get(before, k), ks[k]))
  {
    forall i | 0 <= i < |es|
      ensures Goes(before, es[i], ks[es[i].key], way(0 + i), strict)
        <==> (strict ==> Compatible(Get(before, es[i].key), ks[es[i].key]))
    {
      if !Sends(es[i]) {
        SilentEntryIsNeutral(before, ks[es[i].key], es[i]);
      }
    }
    if AllGo(before, es, ks, way, 0, strict) && strict {
      forall k | k in InNamespace(ks, app)
        ensures Compatible(Get(before, k), ks[k])
      {
        var i :| 0 <= i < |es| && es[i].key == k;
        assert Goes(before, es[i], ks[es[i].key], way(0 + i), strict);
      }
    }
  }

  // With any faults and any type clashes, however far the replay gets, keys
  // outside the backed-up namespace keep their values.
  lemma RestoreStaysInNamespace(
      ks: Keyspace, app: string, es: seq<Entry>, before: Keyspace, way: Fates, strict: bool, k: string)
    requires ValidName(app) && WellFormed(ks) && IsSnapshot(ks, app, es) && !(Namespace(app) <= k)
    ensures Get(RestoreDocument(before, LuaTable(Rows(es)), way, strict).ks, k) == Get(before, k)
  {
    OutsideHasNoEntry(ks, app, es, k);
    ReplaySpares(before, es, ks, way, 0, strict, k);
    RestoreIsReplay(before, es, way, strict);
  }

  lemma OutsideHasNoEntry(ks: Keyspace, app: string, es: seq<Entry>, k: string)
    requires ValidName(app) && IsSnapshot(ks, app, es) && !(Namespace(app) <= k)
    ensures !HasEntry(es, k)
  {
    PatternIsPrefix(app, k);
    assert k !in InNamespace(ks, app);
  }

  lemma RestoreIsReplay(before: Keyspace, es: seq<Entry>, way: Fates, strict: bool)
    ensures RestoreDocument(before, LuaTable(Rows(es)), way, strict) == RestoreAll(before, es, way, 0, strict)
  {
    SnapshotParses(es);
    assert es != [] ==> Rows(es) != [];
  }

  // The namespace of `app` in `a` is the one in `b`.
  ghost predicate SameNamespace(a: Keyspace, b: Keyspace, app: string)
  {
    forall k :: Namespace(app) <= k ==> Get(a, k) == Get(b, k)
  }

  // Replay inverts the snapshot: into an emptied namespace (even an empty
  // backup), the restore always succeeds, leaves all other keys alone, and
  // rebuilds the namespace exactly if and only if every key of the backed-up
  // namespace has one of the five types the script reads. Error replies play
  // no part: there is nothing in the way of another type.
  lemma RestoreInvertsBackupIff(ks: Keyspace, app: string, es: seq<Entry>, before: Keyspace, way: Fates, strict: bool)
    requires ValidName(app) && WellFormed(ks) && WellFormed(before)
    requires IsSnapshot(ks, app, es) && forall n :: way(n) == Answered
    requires forall k :: Namespace(app) <= k ==> k !in before
    ensures var r := RestoreDocument(before, LuaTable(Rows(es)), way, strict);
      && r.ok
      && (forall k :: !(Namespace(app) <= k) ==> Get(r.ks, k) == Get(before, k))
      && (SameNamespace(r.ks, ks, app) <==> forall k :: k in ks && Namespace(app) <= k ==> !ks[k].Other?)
  {
    RestoreMerges(ks, app, es, before, way, strict);
    var r := RestoreDocument(before, LuaTable(Rows(es)), way, strict);
    forall k
      ensures k in InNamespace(ks, app) <==> k in ks && Namespace(app) <= k
    {
      PatternIsPrefix(app, k);
    }
    forall k | k in ks && Namespace(app) <= k
      ensures Get(r.ks, k) == if ks[k].Other? then None else Some(ks[k])
    {
      MergeIntoNothing(ks[k]);
    }
  }

  // What Backup wrote and counted as a backup restores into an emptied
  // namespace exactly when the EVAL was not rejected and every key has one of
  // the five types. The text of an error reply restores nothing.
  lemma WrittenRestoresIff(
      ks: Keyspace, app: string, fate: Fate, file: Content, before: Keyspace, way: Fates, strict: bool)
    requires ValidName(app) && WellFormed(ks) && WellFormed(before) && Wrote(ks, app, fate, strict, Some(file))
    requires forall n :: way(n) == Answered
    requires forall k :: Namespace(app) <= k ==> k !in before
    ensures var r := RestoreFile(before, file, way, strict);
      && (r.ok <==> !fate.Rejected?)
      && (r.ok && SameNamespace(r.ks, ks, app) <==>
            !fate.Rejected? && forall k :: k in ks && Namespace(app) <= k ==> !ks[k].Other?)
      && (fate.Rejected? ==> r.ks == before)
  {
    if fate.Answered? {
      var es :| IsSnapshot(ks, app, es) && Some(file) == Some(Document(LuaTable(Rows(es))));
      RestoreInvertsBackupIff(ks, app, es, before, way, strict);
    }
  }

  lemma MergeIntoNothing(v: Value)
    ensures Merged(None, v) == if v.Other? then None else Some(v)
  {
    match v
    case Hash(fields) => assert map[] + fields == fields;
    case ZSet(scores) => assert map[] + scores == scores;
    case List(items) => assert [] + items == items;
    case Set(members) => assert {} + members == members;
    case Str(_) =>
    case Other(_) =>
  }

  // Teardown's key deletion, then a restore of an earlier backup.
  function Emptied(ks: Keyspace, app: string): Keyspace
  {
    map k | k in ks && !Glob(app + ":*", k) :: ks[k]
  }

  // A backup, the loss of the namespace, and a restore amount to nothing.
  lemma BackupTeardownRestore(ks: Keyspace, app: string, es: seq<Entry>, way: Fates, strict: bool)
    requires ValidName(app) && WellFormed(ks) && IsSnapshot(ks, app, es) && forall n :: way(n) == Answered
    requires forall k :: k in ks && Namespace(app) <= k ==> !ks[k].Other?
    ensures RestoreDocument(Emptied(ks, app), LuaTable(Rows(es)), way, strict) == Replay(ks, true)
  {
    var before := Emptied(ks, app);
    forall k | Namespace(app) <= k
      ensures k !in before
    {
      PatternIsPrefix(app, k);
    }
    RestoreInvertsBackupIff(ks, app, es, before, way, strict);
    var r := RestoreDocument(before, LuaTable(Rows(es)), way, strict);
    forall k
      ensures Get(r.ks, k) == Get(ks, k)
    {
      PatternIsPrefix(app, k);
    }
    assert r.ks.Keys == ks.Keys by {
      forall k
        ensures k in r.ks <==> k in ks
      {
        assert Get(r.ks, k) == Get(ks, k);
      }
    }
    forall k | k in ks
      ensures r.ks[k] == ks[k]
    {
      assert Get(r.ks, k) == Get(ks, k);
    }
    assert r.ks == ks;
  }
}
