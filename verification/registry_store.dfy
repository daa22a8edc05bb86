// The registry on disk: Load, Save, EncryptInPlace and the write-then-rename
// of atomicWrite, with every state a crash can leave.
module RegistryStore {
  import opened Text
  import opened Names
  import opened Registry
  import opened Sorting
  import opened Dotenv

  // A registry.Registry value; a nil map of apps is None.
  datatype Reg = Reg(version: int, apps: Option<Apps>)

  // File contents as terms: decoding is the inverse of encoding, and opening
  // the inverse of sealing under the same secret and nonce, by construction.
  datatype Bytes =
    | RegistryJson(reg: Reg)
    | EnvelopeJson(env: Envelope)
    | Sealed(secret: string, nonce: Bytes, plain: Bytes)
    | Torn(of: Bytes)
    | Other(text: string)

  datatype Base64 = Encoded(of: Bytes) | NotBase64(text: string)

  datatype Envelope = Envelope(
    version: int, encrypted: bool, algorithm: string, kdf: string, nonce: Base64, ciphertext: Base64)

  const ALGORITHM: string := "AES-256-GCM"
  const KDF: string := "SHA-256"

  // json.Unmarshal into the envelope: the JSON of a registry has no
  // `encrypted`.
  function DecodeEnvelope(b: Bytes): Option<Envelope>
  {
    match b
    case EnvelopeJson(env) => Some(env)
    case RegistryJson(reg) => Some(Envelope(reg.version, false, "", "", NotBase64(""), NotBase64("")))
    case _ => None
  }

  // json.Unmarshal into the registry: the JSON of an envelope has no apps.
  function DecodeRegistry(b: Bytes): Option<Reg>
  {
    match b
    case RegistryJson(reg) => Some(reg)
    case EnvelopeJson(env) => Some(Reg(env.version, None))
    case _ => None
  }

  function Decode64(t: Base64): Option<Bytes>
  {
    match t
    case Encoded(b) => Some(b)
    case NotBase64(_) => None
  }

  predicate TooShort(b: Bytes) { b.Other? && |b.text| <= 16 }

  predicate NonceSized(b: Bytes) { b.Other? && |b.text| == 12 }

  function Open(secret: string, nonce: Bytes, payload: Bytes): Option<Bytes>
  {
    if payload.Sealed? && payload.secret == secret && payload.nonce == nonce then Some(payload.plain) else None
  }

  // ------------------------------------------------------------------- secret

  const SECRET_KEYS: seq<string> := ["INFRA_SHELF_SECRET", "INFRA_SHELF_REGISTRY_SECRET"]

  function FirstOf(vars: map<string, string>, keys: seq<string>): Option<string>
  {
    if keys == [] then None
    else if keys[0] in vars && TrimSpace(vars[keys[0]]) != "" then Some(TrimSpace(vars[keys[0]]))
    else FirstOf(vars, keys[1..])
  }

  // registrySecret: the environment first, then the nearest .env file.
  function SecretOf(vars: map<string, string>, dotenv: string): Option<string>
  {
    match FirstOf(vars, SECRET_KEYS)
    case Some(s) => Some(s)
    case None => FirstOf(ParsedEnv(dotenv), SECRET_KEYS)
  }

  // A variable that is set to more than spaces.
  predicate Set(vars: map<string, string>, key: string) { key in vars && TrimSpace(vars[key]) != "" }

  // The first of these that is set, trimmed: the environment before the .env
  // file, and the shorter name before the longer.
  lemma SecretIs(vars: map<string, string>, dotenv: string)
    ensures var file, a, b := ParsedEnv(dotenv), "INFRA_SHELF_SECRET", "INFRA_SHELF_REGISTRY_SECRET";
      SecretOf(vars, dotenv)
        == if Set(vars, a) then Some(TrimSpace(vars[a]))
           else if Set(vars, b) then Some(TrimSpace(vars[b]))
           else if Set(file, a) then Some(TrimSpace(file[a]))
           else if Set(file, b) then Some(TrimSpace(file[b]))
           else None
  {
    var keys := SECRET_KEYS;
    assert keys[0] == "INFRA_SHELF_SECRET" && keys[1..][0] == "INFRA_SHELF_REGISTRY_SECRET" && keys[1..][1..] == [];
    FirstOfTwo(vars, keys);
    FirstOfTwo(ParsedEnv(dotenv), keys);
  }

  lemma FirstOfTwo(vars: map<string, string>, keys: seq<string>)
    requires |keys| == 2
    ensures FirstOf(vars, keys)
      == if Set(vars, keys[0]) then Some(TrimSpace(vars[keys[0]]))
         else if Set(vars, keys[1]) then Some(TrimSpace(vars[keys[1]]))
         else None
  {
    var second := keys[1..];
    assert second[0] == keys[1] && second[1..] == [];
    assert FirstOf(vars, second[1..]) == None;
    assert FirstOf(vars, second) == if Set(vars, keys[1]) then Some(TrimSpace(vars[keys[1]])) else None;
  }

  lemma {:induction false} SecretIsNotBlank(vars: map<string, string>, keys: seq<string>)
    ensures FirstOf(vars, keys).Some? ==> FirstOf(vars, keys).value != "" && Trimmed(FirstOf(vars, keys).value)
  {
    if keys != [] {
      SecretIsNotBlank(vars, keys[1..]);
      if keys[0] in vars {
        TrimFixes(vars[keys[0]]);
      }
    }
  }

  // --------------------------------------------------------------------- load

  datatype Loaded = Loaded(reg: Reg) | LoadError

  function Decrypted(env: Envelope, secret: Option<string>): Option<Bytes>
  {
    if env.algorithm != ALGORITHM || env.kdf != KDF || secret == None then None
    else
      var payload, nonce := Decode64(env.ciphertext), Decode64(env.nonce);
      if payload == None || TooShort(payload.value) || nonce == None || !NonceSized(nonce.value) then None
      else Open(secret.value, nonce.value, payload.value)
  }

  // Load of a file's content, None when the file does not exist.
  function LoadOf(file: Option<Bytes>, secret: Option<string>): Loaded
  {
    match file
    case None => Loaded(Reg(1, Some(map[])))
    case Some(b) =>
      var env := DecodeEnvelope(b);
      var content := if env.Some? && env.value.encrypted then Decrypted(env.value, secret) else Some(b);
      if content == None then LoadError
      else
        var reg := DecodeRegistry(content.value);
        if reg == None then LoadError else Loaded(WithApps(reg.value))
  }

  function WithApps(reg: Reg): Reg
  {
    if reg.apps == None then reg.(apps := Some(map[])) else reg
  }

  // What Save makes of the registry it is given.
  function Normalised(reg: Reg): Reg
  {
    var r := WithApps(reg);
    if r.version == 0 then r.(version := 1) else r
  }

  function Encrypted(reg: Reg, secret: string, nonce: string): Bytes
  {
    EnvelopeJson(Envelope(2, true, ALGORITHM, KDF,
      Encoded(Other(nonce)), Encoded(Sealed(secret, Other(nonce), RegistryJson(reg)))))
  }

  // The payload Save writes.
  function Payload(reg: Reg, secret: Option<string>, nonce: string): Bytes
  {
    match secret
    case Some(s) => Encrypted(Normalised(reg), s, nonce)
    case None => RegistryJson(Normalised(reg))
  }

  // A normalised registry has the same apps, and version 1 if it had none.
  lemma NormalisedKeepsApps(reg: Reg)
    ensures var r := Normalised(reg);
      && r.apps == Some(if reg.apps.Some? then reg.apps.value else map[])
      && r.version == if reg.version == 0 then 1 else reg.version
  {
  }

  // An envelope loads exactly when its algorithms are the known ones, there is a
  // secret, and both its texts decode to what that secret sealed: a registry.
  lemma EnvelopeLoadsIff(env: Envelope, secret: Option<string>)
    requires env.encrypted
    ensures LoadOf(Some(EnvelopeJson(env)), secret).Loaded? <==>
      && env.algorithm == "AES-256-GCM" && env.kdf == "SHA-256" && secret.Some?
      && env.nonce.Encoded? && env.nonce.of.Other? && |env.nonce.of.text| == 12
      && env.ciphertext.Encoded? && env.ciphertext.of.Sealed?
      && env.ciphertext.of.secret == secret.value && env.ciphertext.of.nonce == env.nonce.of
      && (env.ciphertext.of.plain.RegistryJson? || env.ciphertext.of.plain.EnvelopeJson?)
  {
  }

  // What loads, loads with the apps that were stored.
  lemma LoadsWhatIsStored(file: Bytes, secret: Option<string>)
    ensures file.RegistryJson? ==>
      LoadOf(Some(file), secret)
        == Loaded(Reg(file.reg.version, Some(if file.reg.apps.Some? then file.reg.apps.value else map[])))
    ensures file.EnvelopeJson? && file.env.encrypted && LoadOf(Some(file), secret).Loaded? ==>
      && file.env.ciphertext.Encoded? && file.env.ciphertext.of.Sealed?
      && var plain := file.env.ciphertext.of.plain;
         plain.RegistryJson? ==>
           LoadOf(Some(file), secret)
             == Loaded(Reg(plain.reg.version, Some(if plain.reg.apps.Some? then plain.reg.apps.value else map[])))
    ensures file.Torn? || file.Other? || file.Sealed? ==> LoadOf(Some(file), secret) == LoadError
  {
  }

  // Load after Save gives the normalised registry back, with or without a
  // secret.
  lemma LoadAfterSave(reg: Reg, secret: Option<string>, nonce: string)
    requires |nonce| == 12
    ensures LoadOf(Some(Payload(reg, secret, nonce)), secret) == Loaded(Normalised(reg))
  {
  }

  // An encrypted registry is readable with its own secret only: what the
  // program makes of the codec's assumption that a sealed text opens with no
  // other secret.
  lemma OtherSecretsFail(reg: Reg, secret: string, nonce: string, other: Option<string>)
    requires |nonce| == 12
    ensures LoadOf(Some(Payload(reg, Some(secret), nonce)), other).Loaded? <==> other == Some(secret)
  {
  }

  // Normalising is done once: saving what was loaded changes nothing, except
  // that an unset version becomes 1.
  lemma SaveOfLoaded(file: Option<Bytes>, secret: Option<string>)
    requires LoadOf(file, secret).Loaded?
    ensures var r := LoadOf(file, secret).reg;
      r.apps.Some? && Normalised(Normalised(r)) == Normalised(r) && (Normalised(r) == r <==> r.version != 0)
  {
  }

  // ------------------------------------------------------------- atomicWrite

  // The registry file and its .tmp sibling.
  datatype Fs = Fs(path: Option<Bytes>, tmp: Option<Bytes>)

  // How one atomicWrite goes: the states WriteFile passes through are part of
  // it (any content, torn or not), and each call may fail.
  datatype Write = Write(
    mkdirFails: bool, partial: seq<Option<Bytes>>, writeFails: bool, renameFails: bool, removeFails: bool)

  function TmpStates(fs: Fs, partial: seq<Option<Bytes>>): (r: seq<Fs>)
    ensures |r| == |partial| && forall i :: 0 <= i < |r| ==> r[i] == fs.(tmp := partial[i])
  {
    seq(|partial|, i requires 0 <= i < |partial| => fs.(tmp := partial[i]))
  }

  function LastTmp(fs: Fs, partial: seq<Option<Bytes>>): Option<Bytes>
  {
    if partial == [] then fs.tmp else partial[|partial| - 1]
  }

  // The states of the two files after the first, up to the end of the write.
  function Passed(fs: Fs, payload: Bytes, w: Write): seq<Fs>
  {
    if w.mkdirFails then []
    else if w.writeFails then TmpStates(fs, w.partial)
    else TmpStates(fs, w.partial) + ([fs.(tmp := Some(payload))] + RenameStates(fs, payload, w))
  }

  // Every state of the two files during the write: a crash leaves one of
  // these, and a reader sees one of these.
  function States(fs: Fs, payload: Bytes, w: Write): seq<Fs> { [fs] + Passed(fs, payload, w) }

  function RenameStates(fs: Fs, payload: Bytes, w: Write): seq<Fs>
  {
    if !w.renameFails then [Fs(Some(payload), None)]
    else if w.removeFails then []
    else [fs.(tmp := None)]
  }

  predicate WriteOk(w: Write) { !w.mkdirFails && !w.writeFails && !w.renameFails }

  // At every point the path holds the complete old or the complete new
  // content; a write that reports success ends with the new, any other with
  // the old.
  lemma PathIsOldOrNew(fs: Fs, payload: Bytes, w: Write, i: nat)
    requires i < |States(fs, payload, w)|
    ensures States(fs, payload, w)[i].path in {fs.path, Some(payload)}
    ensures i == |States(fs, payload, w)| - 1 ==>
      States(fs, payload, w)[i].path == if WriteOk(w) then Some(payload) else fs.path
  {
  }

  // A concurrent Load, or a Load after a crash, sees the old registry or the
  // new one.
  lemma ReadersSeeOldOrNew(fs: Fs, reg: Reg, secret: Option<string>, nonce: string, w: Write, i: nat)
    requires |nonce| == 12 && i < |States(fs, Payload(reg, secret, nonce), w)|
    ensures LoadOf(States(fs, Payload(reg, secret, nonce), w)[i].path, secret)
      in {LoadOf(fs.path, secret), Loaded(Normalised(reg))}
  {
    PathIsOldOrNew(fs, Payload(reg, secret, nonce), w, i);
    LoadAfterSave(reg, secret, nonce);
  }

  // A write of `payload` that went on to its state `stop`, where the program
  // died or returned.
  datatype Attempt = Attempt(payload: Bytes, w: Write, stop: nat)

  function Stopped(fs: Fs, a: Attempt): Fs
  {
    var all := States(fs, a.payload, a.w);
    all[if a.stop < |all| then a.stop else |all| - 1]
  }

  // The rename was reached.
  predicate Renames(a: Attempt)
  {
    WriteOk(a.w) && a.stop >= |a.w.partial| + 2
  }

  function AfterAll(fs: Fs, attempts: seq<Attempt>): Fs
  {
    if attempts == [] then fs
    else Stopped(AfterAll(fs, attempts[..|attempts| - 1]), attempts[|attempts| - 1])
  }

  lemma StoppedPath(fs: Fs, a: Attempt)
    ensures Stopped(fs, a).path == if Renames(a) then Some(a.payload) else fs.path
  {
  }

  // Over any sequence of writes, each cut off at any point or failing, the
  // path holds the payload of the last one that reached its rename, whatever
  // was left in the .tmp file.
  lemma {:induction false} CrashesKeepLastRename(fs: Fs, attempts: seq<Attempt>, k: int)
    requires -1 <= k < |attempts| && (k >= 0 ==> Renames(attempts[k]))
    requires forall i :: k < i < |attempts| ==> !Renames(attempts[i])
    ensures AfterAll(fs, attempts).path == if k >= 0 then Some(attempts[k].payload) else fs.path
  {
    if attempts != [] {
      var front, last := attempts[..|attempts| - 1], attempts[|attempts| - 1];
      StoppedPath(AfterAll(fs, front), last);
      if k < |attempts| - 1 {
        CrashesKeepLastRename(fs, front, k);
      }
    }
  }

  // ----------------------------------------------------------- the file system

  // The two files as the system calls change them, with the history of all
  // their states. A reader can open the registry in any of them, and a crash
  // can leave any of them.
  class FileSystem {
    var now: Fs
    ghost var history: seq<Fs>

    ghost predicate Valid()
      reads this
    {
      history != [] && history[|history| - 1] == now
    }

    constructor (fs: Fs)
      ensures Valid() && now == fs && history == [fs]
    {
      now := fs;
      history := [fs];
    }

    // One state of os.WriteFile on the .tmp file: created, truncated, or
    // written up to some byte.
    method WriteTmp(content: Option<Bytes>)
      requires Valid()
      modifies this
      ensures Valid() && now == old(now).(tmp := content) && history == old(history) + [now]
    {
      now := now.(tmp := content);
      history := history + [now];
    }

    // os.Rename of the .tmp file to the path.
    method RenameTmp()
      requires Valid()
      modifies this
      ensures Valid() && now == Fs(old(now).tmp, None) && history == old(history) + [now]
    {
      now := Fs(now.tmp, None);
      history := history + [now];
    }

    // os.Remove of the .tmp file.
    method RemoveTmp()
      requires Valid()
      modifies this
      ensures Valid() && now == old(now).(tmp := None) && history == old(history) + [now]
    {
      now := now.(tmp := None);
      history := history + [now];
    }
  }

  // Every state since `before` was added to the history loads as one of two
  // registries.
  ghost predicate OnlyLoads(history: seq<Fs>, before: seq<Fs>, secret: Option<string>, x: Loaded, y: Loaded)
  {
    && |before| <= |history| && history[..|before|] == before
    && forall i :: |before| <= i < |history| ==>
      LoadOf(history[i].path, secret) == x || LoadOf(history[i].path, secret) == y
  }

  // -------------------------------------------------------------------- store

  class RegistryFile {
    const disk: FileSystem
    const secret: Option<string>

    constructor (disk: FileSystem, vars: map<string, string>, dotenv: string)
      ensures this.disk == disk && secret == SecretOf(vars, dotenv)
    {
      this.disk := disk;
      secret := SecretOf(vars, dotenv);
    }

    method Load() returns (r: Loaded)
      ensures r == LoadOf(disk.now.path, secret)
    {
      if disk.now.path == None {
        return Loaded(Reg(1, Some(map[])));
      }
      var content := disk.now.path.value;
      var env := DecodeEnvelope(content);
      if env.Some? && env.value.encrypted {
        var plain := Decrypted(env.value, secret);
        if plain == None {
          return LoadError;
        }
        content := plain.value;
      }
      var reg := DecodeRegistry(content);
      if reg == None {
        return LoadError;
      }
      return Loaded(WithApps(reg.value));
    }

    // atomicWrite, system call by system call: the history grows by exactly
    // the states of the write.
    method AtomicWrite(payload: Bytes, w: Write) returns (ok: bool)
      requires disk.Valid()
      modifies disk
      ensures disk.Valid() && ok == WriteOk(w)
      ensures disk.history == old(disk.history) + Passed(old(disk.now), payload, w)
    {
      if w.mkdirFails {
        return false;
      }
      WriteSome(w.partial);
      if w.writeFails {
        return false;
      }
      disk.WriteTmp(Some(payload));
      if w.renameFails {
        if !w.removeFails {
          disk.RemoveTmp();
        }
        return false;
      }
      disk.RenameTmp();
      return true;
    }

    // os.WriteFile, up to the last byte.
    method WriteSome(partial: seq<Option<Bytes>>)
      requires disk.Valid()
      modifies disk
      ensures disk.Valid() && disk.now == old(disk.now).(tmp := LastTmp(old(disk.now), partial))
      ensures disk.history == old(disk.history) + TmpStates(old(disk.now), partial)
    {
      ghost var fs0, h0 := disk.now, disk.history;
      for i := 0 to |partial|
        invariant disk.Valid() && disk.now == fs0.(tmp := LastTmp(fs0, partial[..i]))
        invariant disk.history == h0 + TmpStates(fs0, partial)[..i]
      {
        disk.WriteTmp(partial[i]);
      }
      assert partial[..|partial|] == partial;
      assert TmpStates(fs0, partial)[..|partial|] == TmpStates(fs0, partial);
    }

    // What the states of a write mean for readers.
    static lemma WriteShows(
        fs: Fs, h0: seq<Fs>, h1: seq<Fs>, payload: Bytes, w: Write, secret: Option<string>, x: Loaded, y: Loaded)
      requires h0 != [] && h0[|h0| - 1] == fs && h1 == h0 + Passed(fs, payload, w)
      requires LoadOf(fs.path, secret) == x && LoadOf(Some(payload), secret) == y
      ensures OnlyLoads(h1, h0, secret, x, y)
      ensures h1[|h1| - 1].path == if WriteOk(w) then Some(payload) else fs.path
    {
      var all := States(fs, payload, w);
      forall i | |h0| <= i < |h1|
        ensures LoadOf(h1[i].path, secret) == x || LoadOf(h1[i].path, secret) == y
      {
        assert h1[i] == all[i - |h0| + 1];
        PathIsOldOrNew(fs, payload, w, i - |h0| + 1);
      }
      PathIsOldOrNew(fs, payload, w, |all| - 1);
      assert h1[|h1| - 1] == all[|all| - 1];
    }

    // Save. A failed one leaves the registry as it was; at every point on the
    // way a reader sees the old registry or the new one.
    method Save(reg: Reg, nonce: string, randFails: bool, w: Write) returns (ok: bool)
      requires |nonce| == 12 && disk.Valid()
      modifies disk
      ensures disk.Valid() && ok == (WriteOk(w) && !(secret.Some? && randFails))
      ensures ok ==> LoadOf(disk.now.path, secret) == Loaded(Normalised(reg))
      ensures ok && reg.apps.Some? ==> LoadOf(disk.now.path, secret).reg.apps == reg.apps
      ensures ok && secret.Some? ==> forall s :: LoadOf(disk.now.path, s).Loaded? <==> s == secret
      ensures !ok ==> disk.now.path == old(disk.now).path
      ensures OnlyLoads(disk.history, old(disk.history), secret, LoadOf(old(disk.now).path, secret),
        Loaded(Normalised(reg)))
    {
      var r := reg;
      if r.apps == None {
        r := r.(apps := Some(map[]));
      }
      if r.version == 0 {
        r := r.(version := 1);
      }
      var payload := RegistryJson(r);
      if secret.Some? {
        if randFails {
          return false;
        }
        payload := Encrypted(r, secret.value, nonce);
      }
      LoadAfterSave(reg, secret, nonce);
      ghost var fs0, h0 := disk.now, disk.history;
      ok := AtomicWrite(payload, w);
      WriteShows(fs0, h0, disk.history, payload, w, secret, LoadOf(fs0.path, secret), Loaded(Normalised(reg)));
    }

    // EncryptInPlace never changes what Load returns, not even half-way.
    method EncryptInPlace(nonce: string, randFails: bool, w: Write) returns (ok: bool)
      requires |nonce| == 12 && disk.Valid()
      modifies disk
      ensures disk.Valid()
      ensures ok == (secret.Some? && LoadOf(old(disk.now).path, secret).Loaded? && !randFails && WriteOk(w))
      ensures var loaded := LoadOf(old(disk.now).path, secret);
        OnlyLoads(disk.history, old(disk.history), secret, loaded, loaded) && LoadOf(disk.now.path, secret) == loaded
      ensures ok ==> forall s :: LoadOf(disk.now.path, s).Loaded? <==> s == secret
      ensures !ok ==> disk.now.path == old(disk.now).path
    {
      if secret == None {
        return false;
      }
      var r := Load();
      if r.LoadError? || randFails {
        return false;
      }
      var payload := Encrypted(r.reg, secret.value, nonce);
      ghost var fs0, h0 := disk.now, disk.history;
      ok := AtomicWrite(payload, w);
      WriteShows(fs0, h0, disk.history, payload, w, secret, r, r);
    }

    // UpsertApp: read, change one entry, write.
    method UpsertApp(name: string, entry: AppEntry, nonce: string, randFails: bool, w: Write) returns (ok: bool)
      requires |nonce| == 12 && disk.Valid()
      modifies disk
      ensures disk.Valid() && (!ok ==> disk.now.path == old(disk.now).path)
      ensures ok ==> LoadOf(old(disk.now).path, secret).Loaded?
      ensures ok ==>
        LoadOf(disk.now.path, secret) == Loaded(Changed(LoadOf(old(disk.now).path, secret).reg, name, Some(entry)))
      ensures ok ==>
        LoadOf(disk.now.path, secret).reg.apps == Some(LoadOf(old(disk.now).path, secret).reg.apps.value[name := entry])
    {
      var r := Load();
      if r.LoadError? {
        return false;
      }
      ok := Save(r.reg.(apps := Some(r.reg.apps.value[name := entry])), nonce, randFails, w);
    }

    // DeleteApp: a missing entry is not an error and writes nothing.
    method DeleteApp(name: string, nonce: string, randFails: bool, w: Write) returns (ok: bool)
      requires |nonce| == 12 && disk.Valid()
      modifies disk
      ensures disk.Valid() && (!ok ==> disk.now.path == old(disk.now).path)
      ensures ok ==> LoadOf(old(disk.now).path, secret).Loaded?
      ensures ok && name !in LoadOf(old(disk.now).path, secret).reg.apps.value ==> disk.history == old(disk.history)
      ensures ok && name in LoadOf(old(disk.now).path, secret).reg.apps.value ==>
        LoadOf(disk.now.path, secret) == Loaded(Changed(LoadOf(old(disk.now).path, secret).reg, name, None))
      ensures ok ==>
        LoadOf(disk.now.path, secret).reg.apps == Some(LoadOf(old(disk.now).path, secret).reg.apps.value - {name})
    {
      var r := Load();
      if r.LoadError? {
        return false;
      }
      if name !in r.reg.apps.value {
        assert r.reg.apps.value - {name} == r.reg.apps.value;
        return true;
      }
      ok := Save(r.reg.(apps := Some(r.reg.apps.value - {name})), nonce, randFails, w);
    }

    static function Changed(reg: Reg, name: string, entry: Option<AppEntry>): Reg
      requires reg.apps.Some?
    {
      var apps := reg.apps.value;
      Normalised(reg.(apps := Some(if entry.Some? then apps[name := entry.value] else apps - {name})))
    }

    // ListApps: every app once, by name.
    method ListApps() returns (apps: Option<seq<(string, AppEntry)>>)
      ensures apps == None <==> LoadOf(disk.now.path, secret) == LoadError
      ensures apps.Some? ==> IsListing(apps.value, LoadOf(disk.now.path, secret).reg.apps.value)
    {
      var r := Load();
      if r.LoadError? {
        return None;
      }
      var found := r.reg.apps.value;
      var names := SortedNames(found.Keys);
      var list: seq<(string, AppEntry)> := [];
      for i := 0 to |names|
        invariant |list| == i
        invariant forall k :: 0 <= k < i ==> names[k] in found && list[k] == (names[k], found[names[k]])
      {
        assert names[i] in names;
        list := list + [(names[i], found[names[i]])];
      }
      assert NamesIn(list) == names;
      return Some(list);
    }
  }

  function NamesIn(list: seq<(string, AppEntry)>): (r: seq<string>)
    ensures |r| == |list| && forall i :: 0 <= i < |list| ==> r[i] == list[i].0
  {
    seq(|list|, i requires 0 <= i < |list| => list[i].0)
  }

  ghost predicate IsListing(list: seq<(string, AppEntry)>, apps: Apps)
  {
    NameOrder(NamesIn(list), apps.Keys) && forall i :: 0 <= i < |list| ==>
      list[i].0 in apps && list[i].1 == apps[list[i].0]
  }

  // The listing does not depend on the order the map is walked in.
  lemma ListingIsUnique(a: seq<(string, AppEntry)>, b: seq<(string, AppEntry)>, apps: Apps)
    requires IsListing(a, apps) && IsListing(b, apps)
    ensures a == b
  {
    SortedEnumerationIsUnique(NamesIn(a), NamesIn(b));
    forall i | 0 <= i < |a|
      ensures a[i] == b[i]
    {
      assert NamesIn(a)[i] == NamesIn(b)[i];
    }
  }
}
