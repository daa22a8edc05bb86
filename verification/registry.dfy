// The registry's data model and the service catalog.
module Registry {
  import opened Text
  import opened Names

  datatype Svc = Postgres | Redis | RabbitMQ | AIStor | MongoDB | Signoz

  // The order of `orderedServices` and of `serviceCatalog`.
  const CATALOG: seq<Svc> := [Postgres, Redis, RabbitMQ, AIStor, MongoDB, Signoz]

  lemma EveryServiceIsListed(s: Svc)
    ensures s in CATALOG
  {
    assert CATALOG[0] == Postgres && CATALOG[1] == Redis && CATALOG[2] == RabbitMQ;
    assert CATALOG[3] == AIStor && CATALOG[4] == MongoDB && CATALOG[5] == Signoz;
    match s
    case Postgres =>
    case Redis =>
    case RabbitMQ =>
    case AIStor =>
    case MongoDB =>
    case Signoz =>
  }

  function SvcName(s: Svc): string
  {
    match s
    case Postgres => "postgres"
    case Redis => "redis"
    case RabbitMQ => "rabbitmq"
    case AIStor => "aistor"
    case MongoDB => "mongodb"
    case Signoz => "signoz"
  }

  function SvcOf(name: string): (r: Option<Svc>)
    ensures r.Some? ==> SvcName(r.value) == name
  {
    if name == "postgres" then Some(Postgres)
    else if name == "redis" then Some(Redis)
    else if name == "rabbitmq" then Some(RabbitMQ)
    else if name == "aistor" then Some(AIStor)
    else if name == "mongodb" then Some(MongoDB)
    else if name == "signoz" then Some(Signoz)
    else None
  }

  lemma NameOfService(s: Svc)
    ensures SvcOf(SvcName(s)) == Some(s)
  {
  }

  datatype Config =
    | PostgresConfig(database: string, username: string, password: string)
    | RedisConfig(username: string, password: string, prefix: string)
    | RabbitMQConfig(vhost: string, username: string, password: string)
    | AIStorConfig(bucket: string, accessKey: string, secretKey: string, endpoint: string)
    | MongoDBConfig(database: string, username: string, password: string)
    | SignozConfig(serviceName: string, environment: string)

  // The six optional pointers of registry.Services, as a map.
  type Services = map<Svc, Config>

  datatype AppEntry = AppEntry(
    createdAt: string, environment: string, signozServiceName: string, services: Services)

  type Apps = map<string, AppEntry>

  // A configuration sits in the field of its own type.
  predicate Fits(svc: Svc, cfg: Config)
  {
    match svc
    case Postgres => cfg.PostgresConfig?
    case Redis => cfg.RedisConfig?
    case RabbitMQ => cfg.RabbitMQConfig?
    case AIStor => cfg.AIStorConfig?
    case MongoDB => cfg.MongoDBConfig?
    case Signoz => cfg.SignozConfig?
  }

  predicate WellTyped(e: AppEntry)
  {
    forall s :: s in e.services ==> Fits(s, e.services[s])
  }

  // ------------------------------------------------------------ service lists

  predicate ValidService(value: string)
  {
    SvcOf(value).Some?
  }

  predicate AllValid(values: seq<string>)
  {
    forall i :: 0 <= i < |values| ==> ValidService(values[i])
  }

  // The values with repetitions dropped, first occurrences in order.
  function Dedup(s: seq<string>): seq<string>
  {
    if s == [] then []
    else
      var r := Dedup(s[..|s| - 1]);
      if s[|s| - 1] in r then r else r + [s[|s| - 1]]
  }

  lemma {:induction false} DedupSound(s: seq<string>)
    ensures Distinct(Dedup(s))
    ensures forall x :: x in Dedup(s) <==> x in s
    ensures Distinct(s) ==> Dedup(s) == s
  {
    if s != [] {
      var front, last := s[..|s| - 1], s[|s| - 1];
      assert s == front + [last];
      DedupSound(front);
    }
  }

  // A list ParseServices accepts: blank values are skipped, the others must
  // be in the catalog once trimmed.
  predicate Parsable(values: seq<string>)
  {
    AllValid(NonEmptyTrimmed(values))
  }

  datatype ParsedServices = Parsed(services: seq<string>) | InvalidService

  method ParseServices(values: seq<string>) returns (r: ParsedServices)
    ensures r == if Parsable(values) then Parsed(Dedup(NonEmptyTrimmed(values))) else InvalidService
  {
    var seen: set<string> := {};
    var services: seq<string> := [];
    ghost var cleaned: seq<string> := [];
    for n := 0 to |values|
      invariant cleaned == NonEmptyTrimmed(values[..n])
      invariant AllValid(cleaned)
      invariant services == Dedup(cleaned)
      invariant forall s :: s in seen <==> s in services
    {
      NonEmptyTrimmedSnoc(values, n);
      var value := TrimSpace(values[n]);
      if value != "" {
        if !ValidService(value) {
          InvalidPrefix(values, n);
          return InvalidService;
        }
        DedupSnoc(cleaned, value);
        cleaned := cleaned + [value];
        if value !in seen {
          seen := seen + {value};
          services := services + [value];
        }
      }
    }
    assert values[..|values|] == values;
    return Parsed(services);
  }

  lemma DedupSnoc(s: seq<string>, x: string)
    ensures Dedup(s + [x]) == if x in s then Dedup(s) else Dedup(s) + [x]
  {
    assert (s + [x])[..|s|] == s;
    DedupSound(s);
  }

  // The list it returns holds each requested service once, and parsing it
  // again changes nothing.
  lemma ParsedListIsCanonical(values: seq<string>)
    requires Parsable(values)
    ensures var r := Dedup(NonEmptyTrimmed(values));
      Distinct(r) && AllValid(r) && Parsable(r) && Dedup(NonEmptyTrimmed(r)) == r
  {
    var cleaned := NonEmptyTrimmed(values);
    var r := Dedup(cleaned);
    DedupSound(cleaned);
    forall i | 0 <= i < |r|
      ensures ValidService(r[i])
    {
      assert r[i] in cleaned;
    }
    ValidListIsTrimmed(r);
    DedupSound(r);
  }

  lemma {:induction false} ValidListIsTrimmed(r: seq<string>)
    requires AllValid(r)
    ensures NonEmptyTrimmed(r) == r
  {
    if r != [] {
      CatalogNamesAreTrimmed(r[0]);
      ValidListIsTrimmed(r[1..]);
    }
  }

  lemma CatalogNamesAreTrimmed(name: string)
    requires ValidService(name)
    ensures TrimSpace(name) == name && name != "" && ValidName(name)
  {
    TrimFixes(name);
  }

  lemma {:induction false} NonEmptyTrimmedConcat(a: seq<string>, b: seq<string>)
    ensures NonEmptyTrimmed(a + b) == NonEmptyTrimmed(a) + NonEmptyTrimmed(b)
  {
    if a == [] {
      assert a + b == b;
    } else {
      assert (a + b)[1..] == a[1..] + b;
      NonEmptyTrimmedConcat(a[1..], b);
    }
  }

  lemma NonEmptyTrimmedSnoc(values: seq<string>, n: nat)
    requires n < |values|
    ensures var p := TrimSpace(values[n]);
      NonEmptyTrimmed(values[..n + 1]) == NonEmptyTrimmed(values[..n]) + (if p == "" then [] else [p])
  {
    assert values[..n + 1] == values[..n] + [values[n]];
    NonEmptyTrimmedConcat(values[..n], [values[n]]);
    assert NonEmptyTrimmed([values[n]][1..]) == [];
  }

  lemma InvalidPrefix(values: seq<string>, n: nat)
    requires n < |values| && TrimSpace(values[n]) != "" && !ValidService(TrimSpace(values[n]))
    ensures !Parsable(values)
  {
    assert values == values[..n + 1] + values[n + 1..];
    NonEmptyTrimmedConcat(values[..n + 1], values[n + 1..]);
    NonEmptyTrimmedSnoc(values, n);
    var k := |NonEmptyTrimmed(values[..n])|;
    assert NonEmptyTrimmed(values)[k] == TrimSpace(values[n]);
  }

  // The catalog services a raw list stands for, when every value is already
  // exactly a catalog name (as ParseServices returns them).
  function Resolve(names: seq<string>): (r: Option<seq<Svc>>)
    ensures r.Some? <==> forall i :: 0 <= i < |names| ==> ValidService(names[i])
    ensures r.Some? ==> |r.value| == |names|
    ensures r.Some? ==> forall i :: 0 <= i < |names| ==> SvcName(r.value[i]) == names[i]
  {
    if names == [] then Some([])
    else
      var head, tail := SvcOf(names[0]), Resolve(names[1..]);
      if head.Some? && tail.Some? then Some([head.value] + tail.value) else None
  }
}
