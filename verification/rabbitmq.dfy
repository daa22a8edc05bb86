// rabbitmq.Ensure: deciding from rabbitmqctl's text output what is missing,
// and re-applying one registered configuration.
module RabbitOps {
  import opened Text
  import opened Names
  import opened Registry
  import opened Brokers
  import opened ServiceOps

  // -------------------------------------------------------- reading listings

  function FirstField(line: string): string { Split(line, '\t')[0] }

  // A line names `target`: the whole trimmed line (vhosts) or its trimmed
  // first tab-separated field (users).
  predicate LineSays(line: string, target: string, field: bool)
  {
    TrimSpace(if field then FirstField(line) else line) == target
  }

  ghost predicate Says(out: string, target: string, field: bool)
  {
    exists i :: 0 <= i < |Split(out, '\n')| && LineSays(Split(out, '\n')[i], target, field)
  }

  method ContainsLine(out: string, target: string) returns (found: bool)
    ensures found <==> Says(out, target, false)
  {
    var lines := Split(out, '\n');
    for i := 0 to |lines|
      invariant forall k :: 0 <= k < i ==> !LineSays(lines[k], target, false)
    {
      if TrimSpace(lines[i]) == target {
        assert LineSays(lines[i], target, false);
        return true;
      }
    }
    return false;
  }

  method ContainsUser(out: string, target: string) returns (found: bool)
    ensures found <==> Says(out, target, true)
  {
    var lines := Split(out, '\n');
    for i := 0 to |lines|
      invariant forall k :: 0 <= k < i ==> !LineSays(lines[k], target, true)
    {
      if TrimSpace(FirstField(lines[i])) == target {
        assert LineSays(lines[i], target, true);
        return true;
      }
    }
    return false;
  }

  // What docker.Exec does to the output: trailing "\r\n\t " is cut.
  predicate IsTrailer(c: char) { c in "\r\n\t " }

  function TrimOut(s: string): string
  {
    if s != "" && IsTrailer(s[|s| - 1]) then TrimOut(s[..|s| - 1]) else s
  }

  const VHOST_BANNER := "Listing vhosts ..."
  const USER_BANNER := "Listing users ..."

  function VhostText(order: seq<string>): string
  {
    TrimOut(Join([VHOST_BANNER] + order, "\n"))
  }

  function UserRows(order: seq<string>, tags: string -> string): (rows: seq<string>)
    ensures |rows| == |order|
    ensures forall i :: 0 <= i < |order| ==> rows[i] == order[i] + "\t" + tags(order[i])
  {
    seq(|order|, i requires 0 <= i < |order| => order[i] + "\t" + tags(order[i]))
  }

  function UserText(order: seq<string>, tags: string -> string): string
  {
    TrimOut(Join([USER_BANNER] + UserRows(order, tags), "\n"))
  }

  lemma {:induction false} AllSpace(x: string, c: char)
    requires IsSpace(c)
    ensures TrimLeft(x + [c]) == if TrimLeft(x) == "" then "" else TrimLeft(x) + [c]
  {
    if x == "" {
      assert x + [c] == [c] && [c][1..] == "";
      assert TrimLeft([c]) == TrimLeft("");
    } else {
      assert (x + [c])[1..] == x[1..] + [c];
      if IsSpace(x[0]) {
        AllSpace(x[1..], c);
      }
    }
  }

  lemma TrimSpaceSnoc(x: string, c: char)
    requires IsSpace(c)
    ensures TrimSpace(x + [c]) == TrimSpace(x)
  {
    AllSpace(x, c);
    var l := TrimLeft(x);
    if l != "" {
      assert (l + [c])[..|l|] == l;
    }
  }

  lemma TrailerSaysNothing(line: string, c: char, target: string, field: bool)
    requires IsTrailer(c) && c != '\n'
    ensures LineSays(line + [c], target, field) <==> LineSays(line, target, field)
  {
    if !field {
      TrimSpaceSnoc(line, c);
    } else if c == '\t' {
      SplitConcat(line, "", '\t');
      assert line + ['\t'] + "" == line + [c];
    } else {
      SplitTail(line, [c], '\t');
      var p := Split(line, '\t');
      if |p| == 1 {
        TrimSpaceSnoc(p[0], c);
      }
    }
  }

  lemma TrailerIsSilent(s: string, c: char, target: string, field: bool)
    requires IsTrailer(c) && target != ""
    ensures Says(s + [c], target, field) <==> Says(s, target, field)
  {
    var p, q := Split(s, '\n'), Split(s + [c], '\n');
    if c == '\n' {
      SplitConcat(s, "", '\n');
      assert s + ['\n'] + "" == s + [c];
      assert q == p + [""];
      forall i | 0 <= i < |p|
        ensures q[i] == p[i]
      {
      }
    } else {
      SplitTail(s, [c], '\n');
      var n := |p| - 1;
      assert |q| == |p| && q[n] == p[n] + [c];
      TrailerSaysNothing(p[n], c, target, field);
      forall i | 0 <= i < |p|
        ensures LineSays(q[i], target, field) <==> LineSays(p[i], target, field)
      {
        assert i < n ==> q[i] == p[i];
      }
    }
  }

  lemma {:induction false} TrimOutIsSilent(s: string, target: string, field: bool)
    requires target != ""
    ensures Says(TrimOut(s), target, field) <==> Says(s, target, field)
  {
    if s != "" && IsTrailer(s[|s| - 1]) {
      var t, c := s[..|s| - 1], s[|s| - 1];
      assert s == t + [c];
      TrailerIsSilent(t, c, target, field);
      TrimOutIsSilent(t, target, field);
    }
  }

  lemma SaysOfConcat(a: string, b: string, target: string, field: bool)
    ensures Says(a + "\n" + b, target, field) <==> Says(a, target, field) || Says(b, target, field)
  {
    SplitConcat(a, b, '\n');
    var p, q := Split(a, '\n'), Split(b, '\n');
    var r := Split(a + "\n" + b, '\n');
    assert r == p + q;
    forall i | 0 <= i < |p|
      ensures r[i] == p[i]
    {
    }
    forall i | 0 <= i < |q|
      ensures r[|p| + i] == q[i]
    {
    }
  }

  lemma {:induction false} SaysOfJoin(rows: seq<string>, target: string, field: bool)
    requires |rows| >= 1
    ensures Says(Join(rows, "\n"), target, field) <==>
      exists i :: 0 <= i < |rows| && Says(rows[i], target, field)
  {
    if |rows| == 1 {
      assert Join(rows, "\n") == rows[0];
    } else {
      SaysOfConcat(rows[0], Join(rows[1..], "\n"), target, field);
      SaysOfJoin(rows[1..], target, field);
      forall i | 1 <= i < |rows|
        ensures rows[1..][i - 1] == rows[i]
      {
      }
    }
  }

  lemma SaysOfUserRow(name: string, tags: string, target: string)
    requires '\n' !in tags
    ensures Says(name + "\t" + tags, target, true) <==> Says(name, target, true)
  {
    assert name + "\t" + tags == name + ("\t" + tags);
    SplitTail(name, "\t" + tags, '\n');
    var p, q := Split(name, '\n'), Split(name + "\t" + tags, '\n');
    var n := |p| - 1;
    SplitConcat(p[n], tags, '\t');
    LastFieldIsKept(p[n], tags, target);
    assert p[n] + ("\t" + tags) == p[n] + "\t" + tags;
    assert q == p[..n] + [p[n] + "\t" + tags];
    SaysButLast(p, q, target);
  }

  lemma LastFieldIsKept(line: string, tags: string, target: string)
    ensures LineSays(line + "\t" + tags, target, true) <==> LineSays(line, target, true)
  {
    SplitConcat(line, tags, '\t');
  }

  lemma SaysButLast(p: seq<string>, q: seq<string>, target: string)
    requires |p| == |q| > 0 && p[..|p| - 1] == q[..|p| - 1]
    requires LineSays(q[|p| - 1], target, true) <==> LineSays(p[|p| - 1], target, true)
    ensures (exists i :: 0 <= i < |q| && LineSays(q[i], target, true))
      <==> (exists i :: 0 <= i < |p| && LineSays(p[i], target, true))
  {
    forall i | 0 <= i < |p| - 1
      ensures q[i] == p[i]
    {
      assert q[..|p| - 1][i] == p[..|p| - 1][i];
    }
  }

  // ------------------------------------------- what a listing says of a state

  function VhostNames(w: World): set<string> { set r | r in w.res && r.Vhost? :: r.name }

  function UserNames(w: World): set<string> { set r | r in w.res && r.RabbitUser? :: r.name }

  ghost predicate Enumerates(order: seq<string>, names: set<string>)
  {
    forall n :: n in order <==> n in names
  }

  // The listing makes Ensure believe that the vhost (user) exists.
  ghost predicate VhostListed(w: World, target: string)
  {
    Says(VHOST_BANNER, target, false) || exists n :: n in VhostNames(w) && Says(n, target, false)
  }

  ghost predicate UserListed(w: World, target: string)
  {
    Says(USER_BANNER, target, true) || exists n :: n in UserNames(w) && Says(n, target, true)
  }

  lemma RowsSay(
      banner: string, rows: seq<string>, order: seq<string>, names: set<string>, target: string, field: bool)
    requires Enumerates(order, names) && |rows| == |order|
    requires forall k :: 0 <= k < |order| ==> (Says(rows[k], target, field) <==> Says(order[k], target, field))
    ensures (exists i :: 0 <= i < |[banner] + rows| && Says(([banner] + rows)[i], target, field)) <==>
      Says(banner, target, field) || exists n :: n in names && Says(n, target, field)
  {
    var all := [banner] + rows;
    if exists n :: n in names && Says(n, target, field) {
      var n :| n in names && Says(n, target, field);
      var k :| 0 <= k < |order| && order[k] == n;
      assert all[k + 1] == rows[k];
    }
    if Says(banner, target, field) {
      assert all[0] == banner;
    }
    if i :| 0 <= i < |all| && Says(all[i], target, field) && i > 0 {
      assert all[i] == rows[i - 1];
      assert order[i - 1] in order && Says(order[i - 1], target, field);
    }
  }

  lemma VhostTextSays(order: seq<string>, w: World, target: string)
    requires Enumerates(order, VhostNames(w)) && target != ""
    ensures Says(VhostText(order), target, false) <==> VhostListed(w, target)
  {
    var rows := [VHOST_BANNER] + order;
    TrimOutIsSilent(Join(rows, "\n"), target, false);
    SaysOfJoin(rows, target, false);
    RowsSay(VHOST_BANNER, order, order, VhostNames(w), target, false);
  }

  lemma UserTextSays(order: seq<string>, tags: string -> string, w: World, target: string)
    requires Enumerates(order, UserNames(w)) && target != ""
    requires forall n :: '\n' !in tags(n)
    ensures Says(UserText(order, tags), target, true) <==> UserListed(w, target)
  {
    var users := UserRows(order, tags);
    var rows := [USER_BANNER] + users;
    TrimOutIsSilent(Join(rows, "\n"), target, true);
    SaysOfJoin(rows, target, true);
    forall k | 0 <= k < |order|
      ensures Says(users[k], target, true) <==> Says(order[k], target, true)
    {
      SaysOfUserRow(order[k], tags(order[k]), target);
    }
    RowsSay(USER_BANNER, users, order, UserNames(w), target, true);
  }

  // A valid name that exists is always listed.
  lemma ExistingIsListed(w: World, target: string)
    requires ValidName(target)
    ensures Vhost(target) in w.res ==> VhostListed(w, target)
    ensures RabbitUser(target) in w.res ==> UserListed(w, target)
  {
    ValidNamesAreClean(target);
    TrimFixes(target);
    assert '\n' !in target && '\t' !in target;
    SplitWhole(target, '\n');
    SplitWhole(target, '\t');
    assert LineSays(Split(target, '\n')[0], target, false);
    assert LineSays(Split(target, '\n')[0], target, true);
    if Vhost(target) in w.res {
      assert Vhost(target).name in VhostNames(w);
    }
    if RabbitUser(target) in w.res {
      assert RabbitUser(target).name in UserNames(w);
    }
  }

  // ------------------------------------------------------------------ Ensure

  predicate Complete(cfg: Config)
    requires cfg.RabbitMQConfig?
  {
    cfg.vhost != "" && cfg.username != "" && cfg.password != ""
  }

  function RightsSteps(cfg: Config): seq<Step>
    requires cfg.RabbitMQConfig?
  {
    [Must(SetPermissions(cfg.vhost, cfg.username))] + [Must(SetUserTags(cfg.username))]
  }

  function UserSteps(listed: bool, cfg: Config): seq<Step>
    requires cfg.RabbitMQConfig?
  {
    [Must(ListUsers)]
    + ([Must(if listed then ChangePassword(cfg.username, cfg.password) else AddUser(cfg.username, cfg.password))]
       + RightsSteps(cfg))
  }

  function VhostSteps(listed: bool, userListed: bool, cfg: Config): seq<Step>
    requires cfg.RabbitMQConfig?
  {
    if listed then UserSteps(userListed, cfg) else [Must(AddVhost(cfg.vhost))] + UserSteps(userListed, cfg)
  }

  ghost function EnsureSteps(w: World, cfg: Config): seq<Step>
    requires cfg.RabbitMQConfig?
  {
    [Must(ListVhosts)] + VhostSteps(VhostListed(w, cfg.vhost), UserListed(w, cfg.username), cfg)
  }

  lemma RunCons(w: World, c: Cmd, tail: seq<Step>, fates: Fates)
    ensures Run(w, [Must(c)] + tail, fates) ==
      var r := Send(w, c, fates); if r.ok then Run(r.w, tail, fates) else r
  {
    assert ([Must(c)] + tail)[1..] == tail;
  }

  ghost function EnsureRabbit(w: World, cfg: Config, fates: Fates): Reply
    requires cfg.RabbitMQConfig?
  {
    if !Complete(cfg) then Reply(w, false) else Run(w, EnsureSteps(w, cfg), fates)
  }

  // The broker answers a listing in an order of its own.
  method VhostListing(w: World) returns (out: string)
    ensures exists order :: Enumerates(order, VhostNames(w)) && out == VhostText(order)
  {
    var order := EnumerationOf(VhostNames(w));
    out := VhostText(order);
  }

  method UserListing(w: World, tags: string -> string) returns (out: string)
    ensures exists order :: Enumerates(order, UserNames(w)) && out == UserText(order, tags)
  {
    var order := EnumerationOf(UserNames(w));
    out := UserText(order, tags);
  }

  method EnumerationOf(names: set<string>) returns (order: seq<string>)
    ensures Enumerates(order, names)
  {
    order := [];
    var left := names;
    while left != {}
      invariant left <= names
      invariant forall n :: n in order <==> n in names && n !in left
      decreases |left|
    {
      var n :| n in left;
      left := left - {n};
      order := order + [n];
    }
  }

  // The listing, searched.
  method VhostPresent(w: World, vhost: string) returns (present: bool)
    requires vhost != ""
    ensures present <==> VhostListed(w, vhost)
  {
    var out := VhostListing(w);
    ghost var order :| Enumerates(order, VhostNames(w)) && out == VhostText(order);
    VhostTextSays(order, w, vhost);
    present := ContainsLine(out, vhost);
  }

  method UserPresent(w: World, user: string, tags: string -> string) returns (present: bool)
    requires user != "" && forall n :: '\n' !in tags(n)
    ensures present <==> UserListed(w, user)
  {
    var out := UserListing(w, tags);
    ghost var order :| Enumerates(order, UserNames(w)) && out == UserText(order, tags);
    UserTextSays(order, tags, w, user);
    present := ContainsUser(out, user);
  }

  // rabbitmq.Ensure, command by command. `tags` is the second column of
  // list_users.
  method Ensure(server: Server, cfg: Config, tags: string -> string) returns (ok: bool)
    requires cfg.RabbitMQConfig? && forall n :: '\n' !in tags(n)
    modifies server
    ensures Reply(server.w, ok) == EnsureRabbit(old(server.w), cfg, server.fates)
  {
    if cfg.vhost == "" || cfg.username == "" || cfg.password == "" {
      return false;
    }
    ghost var w0, fates := server.w, server.fates;
    ghost var vhostListed, userListed := VhostListed(w0, cfg.vhost), UserListed(w0, cfg.username);
    RunCons(w0, ListVhosts, VhostSteps(vhostListed, userListed, cfg), fates);
    ok := server.Do(ListVhosts);
    if !ok {
      return;
    }
    var present := VhostPresent(server.w, cfg.vhost);
    assert VhostNames(server.w) == VhostNames(w0);
    if !present {
      RunCons(server.w, AddVhost(cfg.vhost), UserSteps(userListed, cfg), fates);
      ok := server.Do(AddVhost(cfg.vhost));
      if !ok {
        return;
      }
    }
    assert UserNames(server.w) == UserNames(w0);
    ok := EnsureUser(server, cfg, tags);
  }

  // The user half of rabbitmq.Ensure.
  method EnsureUser(server: Server, cfg: Config, tags: string -> string) returns (ok: bool)
    requires cfg.RabbitMQConfig? && cfg.username != "" && forall n :: '\n' !in tags(n)
    modifies server
    ensures Reply(server.w, ok) ==
      Run(old(server.w), UserSteps(UserListed(old(server.w), cfg.username), cfg), server.fates)
  {
    ghost var w0, fates := server.w, server.fates;
    ghost var listed := UserListed(w0, cfg.username);
    ghost var setUser := if listed then ChangePassword(cfg.username, cfg.password)
      else AddUser(cfg.username, cfg.password);
    RunCons(w0, ListUsers, [Must(setUser)] + RightsSteps(cfg), fates);
    ok := server.Do(ListUsers);
    if !ok {
      return;
    }
    var present := UserPresent(server.w, cfg.username, tags);
    assert UserNames(server.w) == UserNames(w0);
    RunCons(server.w, setUser, RightsSteps(cfg), fates);
    if !present {
      ok := server.Do(AddUser(cfg.username, cfg.password));
    } else {
      ok := server.Do(ChangePassword(cfg.username, cfg.password));
    }
    if !ok {
      return;
    }
    RunCons(server.w, SetPermissions(cfg.vhost, cfg.username), [Must(SetUserTags(cfg.username))], fates);
    ok := server.Do(SetPermissions(cfg.vhost, cfg.username));
    if !ok {
      return;
    }
    RunOne(server.w, [Must(SetUserTags(cfg.username))], fates);
    ok := server.Do(SetUserTags(cfg.username));
  }
}
