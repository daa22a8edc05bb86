// Backup file names: <service>_<timestamp>.<ext>, their order, and the
// functions that read the service back from a name.
module BackupNames {
  import opened Text
  import opened Names
  import opened Registry
  import opened Sorting

  // ------------------------------------------------------------- timestamps

  // The civil fields of an instant, as 20060102T150405 prints them.
  datatype Stamp = Stamp(year: nat, month: nat, day: nat, hour: nat, minute: nat, second: nat)

  predicate Printable(t: Stamp)
  {
    t.year < 10000 && t.month < 100 && t.day < 100 && t.hour < 100 && t.minute < 100 && t.second < 100
  }

  predicate Earlier(a: Stamp, b: Stamp)
  {
    if a.year != b.year then a.year < b.year
    else if a.month != b.month then a.month < b.month
    else if a.day != b.day then a.day < b.day
    else if a.hour != b.hour then a.hour < b.hour
    else if a.minute != b.minute then a.minute < b.minute
    else a.second < b.second
  }

  function Digit(d: nat): char
    requires d < 10
  {
    '0' + d as char
  }

  function Digits(n: nat, width: nat): (s: string)
    ensures |s| == width
  {
    if width == 0 then "" else Digits(n / 10, width - 1) + [Digit(n % 10)]
  }

  function Pow10(width: nat): nat
  {
    if width == 0 then 1 else 10 * Pow10(width - 1)
  }

  // Zero-padded decimals of one width sort as the numbers do.
  lemma {:induction false} DigitsOrder(a: nat, b: nat, width: nat)
    requires a < Pow10(width) && b < Pow10(width)
    ensures Less(Digits(a, width), Digits(b, width)) <==> a < b
    ensures Digits(a, width) == Digits(b, width) <==> a == b
  {
    if width > 0 {
      DigitsOrder(a / 10, b / 10, width - 1);
      var x, y := Digits(a / 10, width - 1), Digits(b / 10, width - 1);
      LessBlocks(x, y, [Digit(a % 10)], [Digit(b % 10)]);
      assert Digits(a, width)[..width - 1] == x && Digits(b, width)[..width - 1] == y;
      assert Digits(a, width)[width - 1] == Digit(a % 10) && Digits(b, width)[width - 1] == Digit(b % 10);
    }
  }

  function StampText(t: Stamp): (s: string)
    ensures |s| == 15
  {
    Digits(t.year, 4) + (Digits(t.month, 2) + (Digits(t.day, 2) + ("T"
      + (Digits(t.hour, 2) + (Digits(t.minute, 2) + Digits(t.second, 2))))))
  }

  // Blocks of fixed width: the first difference decides.
  lemma BlockOrder(a: nat, b: nat, width: nat, x: string, y: string)
    requires a < Pow10(width) && b < Pow10(width)
    ensures Less(Digits(a, width) + x, Digits(b, width) + y) <==> a < b || (a == b && Less(x, y))
  {
    DigitsOrder(a, b, width);
    LessBlocks(Digits(a, width), Digits(b, width), x, y);
  }

  // Lexicographic order on the text is chronological order.
  lemma StampOrder(a: Stamp, b: Stamp)
    requires Printable(a) && Printable(b)
    ensures Less(StampText(a), StampText(b)) <==> Earlier(a, b)
  {
    var a6, b6 := Digits(a.second, 2), Digits(b.second, 2);
    var a5, b5 := Digits(a.minute, 2) + a6, Digits(b.minute, 2) + b6;
    var a4, b4 := Digits(a.hour, 2) + a5, Digits(b.hour, 2) + b5;
    var a3, b3 := Digits(a.day, 2) + ("T" + a4), Digits(b.day, 2) + ("T" + b4);
    var a2, b2 := Digits(a.month, 2) + a3, Digits(b.month, 2) + b3;
    DigitsOrder(a.second, b.second, 2);
    BlockOrder(a.minute, b.minute, 2, a6, b6);
    BlockOrder(a.hour, b.hour, 2, a5, b5);
    LessUnderPrefix("T", a4, b4);
    BlockOrder(a.day, b.day, 2, "T" + a4, "T" + b4);
    BlockOrder(a.month, b.month, 2, a3, b3);
    BlockOrder(a.year, b.year, 4, a2, b2);
    assert StampText(a) == Digits(a.year, 4) + a2 && StampText(b) == Digits(b.year, 4) + b2;
  }

  // -------------------------------------------------------------- file names

  predicate Backupable(svc: Svc) { svc != Signoz }

  // serviceExt: a service without an entry has no extension.
  function Extension(svc: Svc): string
  {
    match svc
    case Postgres => "sql"
    case Redis => "json"
    case RabbitMQ => "json"
    case AIStor => "tar"
    case MongoDB => "archive"
    case Signoz => ""
  }

  function Prefix(svc: Svc): string { SvcName(svc) + "_" }

  function FileName(svc: Svc, t: Stamp): string
  {
    Prefix(svc) + (StampText(t) + ("." + Extension(svc)))
  }

  // Among the names the program makes for one service, the later one is the
  // greater string.
  lemma FileNameOrder(svc: Svc, a: Stamp, b: Stamp)
    requires Printable(a) && Printable(b)
    ensures Less(FileName(svc, a), FileName(svc, b)) <==> Earlier(a, b)
  {
    var tail := "." + Extension(svc);
    LessUnderPrefix(Prefix(svc), StampText(a) + tail, StampText(b) + tail);
    LessBlocks(StampText(a), StampText(b), tail, tail);
    LessTotal(tail, tail);
    StampOrder(a, b);
  }

  lemma FileNameIsInjective(svc: Svc, a: Stamp, b: Stamp)
    requires Printable(a) && Printable(b) && FileName(svc, a) == FileName(svc, b)
    ensures a == b
  {
    LessTotal(FileName(svc, a), FileName(svc, b));
    FileNameOrder(svc, a, b);
    FileNameOrder(svc, b, a);
  }

  // backup.DetectService.
  function DetectService(name: string): string
  {
    if HasPrefix(name, "postgres_") && HasSuffix(name, ".sql") then "postgres"
    else if HasPrefix(name, "redis_") && HasSuffix(name, ".json") then "redis"
    else if HasPrefix(name, "rabbitmq_") && HasSuffix(name, ".json") then "rabbitmq"
    else if HasPrefix(name, "aistor_") && HasSuffix(name, ".tar") then "aistor"
    else if HasPrefix(name, "mongodb_") && HasSuffix(name, ".archive") then "mongodb"
    else ""
  }

  const RESTORABLE: seq<Svc> := [Postgres, Redis, RabbitMQ, AIStor, MongoDB]

  lemma OnePrefix(a: Svc, b: Svc, name: string)
    requires HasPrefix(name, Prefix(a)) && HasPrefix(name, Prefix(b))
    ensures a == b
  {
    var x, y := Prefix(a), Prefix(b);
    assert |x| >= 6 && |y| >= 6;
    assert name[0] == x[0] == y[0] && name[1] == x[1] == y[1];
  }

  // shelfcore.detectService: a search by prefix alone.
  method DetectByPrefix(name: string) returns (r: string)
    ensures forall svc :: svc in RESTORABLE && HasPrefix(name, Prefix(svc)) ==> r == SvcName(svc)
    ensures (forall svc :: svc in RESTORABLE ==> !HasPrefix(name, Prefix(svc))) ==> r == ""
  {
    for i := 0 to |RESTORABLE|
      invariant forall k :: 0 <= k < i ==> !HasPrefix(name, Prefix(RESTORABLE[k]))
    {
      if HasPrefix(name, Prefix(RESTORABLE[i])) {
        forall svc | svc in RESTORABLE && HasPrefix(name, Prefix(svc))
          ensures svc == RESTORABLE[i]
        {
          OnePrefix(svc, RESTORABLE[i], name);
        }
        return SvcName(RESTORABLE[i]);
      }
    }
    return "";
  }

  lemma PrefixTexts()
    ensures Prefix(Postgres) == "postgres_" && Prefix(Redis) == "redis_" && Prefix(RabbitMQ) == "rabbitmq_"
    ensures Prefix(AIStor) == "aistor_" && Prefix(MongoDB) == "mongodb_"
  {
  }

  lemma OnlyOwnPrefix(svc: Svc, t: Stamp)
    requires Backupable(svc)
    ensures HasPrefix(FileName(svc, t), Prefix(svc)) && HasSuffix(FileName(svc, t), "." + Extension(svc))
    ensures forall other :: HasPrefix(FileName(svc, t), Prefix(other)) ==> other == svc
  {
    var name, suffix := FileName(svc, t), "." + Extension(svc);
    assert name == (Prefix(svc) + StampText(t)) + suffix;
    forall other | HasPrefix(name, Prefix(other))
      ensures other == svc
    {
      OnePrefix(other, svc, name);
    }
  }

  lemma OnePrefixFits(svc: Svc, name: string)
    requires HasPrefix(name, Prefix(svc)) && forall other :: HasPrefix(name, Prefix(other)) ==> other == svc
    ensures HasPrefix(name, "postgres_") <==> svc == Postgres
    ensures HasPrefix(name, "redis_") <==> svc == Redis
    ensures HasPrefix(name, "rabbitmq_") <==> svc == RabbitMQ
    ensures HasPrefix(name, "aistor_") <==> svc == AIStor
    ensures HasPrefix(name, "mongodb_") <==> svc == MongoDB
  {
    PrefixTexts();
  }

  lemma OnePrefixDecides(svc: Svc, name: string)
    requires Backupable(svc) && HasPrefix(name, Prefix(svc)) && HasSuffix(name, "." + Extension(svc))
    requires forall other :: HasPrefix(name, Prefix(other)) ==> other == svc
    ensures DetectService(name) == SvcName(svc)
  {
    OnePrefixFits(svc, name);
  }

  // Both detectors return the service that wrote the file.
  lemma DetectorsAgreeWithWriter(svc: Svc, t: Stamp)
    requires Backupable(svc)
    ensures DetectService(FileName(svc, t)) == SvcName(svc)
    ensures svc in RESTORABLE && HasPrefix(FileName(svc, t), Prefix(svc))
    ensures forall other :: HasPrefix(FileName(svc, t), Prefix(other)) ==> other == svc
  {
    OnlyOwnPrefix(svc, t);
    OnePrefixDecides(svc, FileName(svc, t));
  }

  // ------------------------------------------------------ the latest backup

  // `name` is the greatest of the names that start with the service's prefix.
  ghost predicate IsLatest(names: set<string>, svc: Svc, name: string)
  {
    && name in names && HasPrefix(name, Prefix(svc))
    && forall n :: n in names && HasPrefix(n, Prefix(svc)) ==> AtMost(n, name)
  }

  // findLatestBackup: collect, sort in reverse, take the first.
  method FindLatestBackup(names: set<string>, svc: Svc) returns (r: Option<string>)
    ensures r == None <==> forall n :: n in names ==> !HasPrefix(n, Prefix(svc))
    ensures r.Some? ==> IsLatest(names, svc, r.value)
  {
    var matching: set<string> := {};
    var left := names;
    while left != {}
      invariant left <= names
      invariant forall n :: n in matching <==> n in names && n !in left && HasPrefix(n, Prefix(svc))
      decreases |left|
    {
      var n :| n in left;
      left := left - {n};
      if HasPrefix(n, Prefix(svc)) {
        matching := matching + {n};
      }
    }
    var sorted := SortedNames(matching);
    if |sorted| == 0 {
      EmptyHasNoMembers(sorted);
      forall n | n in names
        ensures !HasPrefix(n, Prefix(svc))
      {
        assert n !in sorted && n !in matching;
      }
      return None;
    }
    var last := sorted[|sorted| - 1];
    assert last in sorted && last in matching;
    forall n | n in names && HasPrefix(n, Prefix(svc))
      ensures AtMost(n, last)
    {
      assert n in matching && n in sorted;
      var i :| 0 <= i < |sorted| && sorted[i] == n;
      LessTotal(n, n);
    }
    return Some(last);
  }

  // The latest name is unique.
  lemma LatestIsUnique(names: set<string>, svc: Svc, a: string, b: string)
    requires IsLatest(names, svc, a) && IsLatest(names, svc, b)
    ensures a == b
  {
    LessTotal(a, b);
  }

  // When every name with the prefix was made by the program, the latest name
  // belongs to the latest instant.
  lemma LatestIsNewest(names: set<string>, svc: Svc, t: Stamp)
    requires Backupable(svc) && Printable(t) && FileName(svc, t) in names
    requires forall n :: n in names && HasPrefix(n, Prefix(svc)) ==>
      exists u :: Printable(u) && n == FileName(svc, u) && !Earlier(t, u)
    ensures IsLatest(names, svc, FileName(svc, t))
  {
    DetectorsAgreeWithWriter(svc, t);
    forall n | n in names && HasPrefix(n, Prefix(svc))
      ensures AtMost(n, FileName(svc, t))
    {
      var u :| Printable(u) && n == FileName(svc, u) && !Earlier(t, u);
      FileNameOrder(svc, t, u);
    }
  }
}
