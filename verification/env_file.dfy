// EnvFile: the printers of the six services, and the round trip through the
// parser.
module EnvFile {
  import opened Text
  import opened Names
  import opened Registry
  import opened Brokers
  import opened ServiceOps
  import opened Dotenv

  // ------------------------------------------------------------- PathEscape

  // The characters url.PathEscape leaves alone.
  predicate PathSafe(c: char)
  {
    'a' <= c <= 'z' || 'A' <= c <= 'Z' || '0' <= c <= '9' || c in "-_.~$&+:=@"
  }

  function Hex(d: nat): char
    requires d < 16
  {
    if d < 10 then '0' + d as char else 'A' + (d - 10) as char
  }

  function PercentByte(b: nat): string
    requires b < 256
  {
    ['%', Hex(b / 16), Hex(b % 16)]
  }

  // The UTF-8 bytes of a character, percent-encoded.
  function Percent(c: char): string
  {
    var n := c as int;
    if n < 0x80 then PercentByte(n)
    else if n < 0x800 then PercentByte(0xC0 + n / 0x40) + PercentByte(0x80 + n % 0x40)
    else if n < 0x10000 then
      PercentByte(0xE0 + n / 0x1000) + PercentByte(0x80 + n / 0x40 % 0x40) + PercentByte(0x80 + n % 0x40)
    else
      PercentByte(0xF0 + n / 0x40000) + PercentByte(0x80 + n / 0x1000 % 0x40) + PercentByte(0x80 + n / 0x40 % 0x40)
      + PercentByte(0x80 + n % 0x40)
  }

  function PathEscape(s: string): string
  {
    if s == "" then "" else (if PathSafe(s[0]) then [s[0]] else Percent(s[0])) + PathEscape(s[1..])
  }

  predicate OneLine(s: string)
  {
    NoSpace(s) && '\n' !in s
  }

  lemma PercentIsOneLine(c: char)
    ensures OneLine(Percent(c))
  {
    assert forall b: nat :: b < 256 ==> OneLine(PercentByte(b));
  }

  lemma {:induction false} EscapedIsOneLine(s: string)
    ensures OneLine(PathEscape(s))
  {
    if s != "" {
      EscapedIsOneLine(s[1..]);
      PercentIsOneLine(s[0]);
    }
  }

  // Valid app names are printed as they are.
  lemma {:induction false} EscapeKeepsNames(s: string)
    requires forall i :: 0 <= i < |s| ==> IsNameChar(s[i])
    ensures PathEscape(s) == s
  {
    if s != "" {
      EscapeKeepsNames(s[1..]);
      assert IsNameChar(s[0]);
    }
  }

  // ----------------------------------------------------------------- printers

  function Header(svc: Svc): string
  {
    match svc
    case Postgres => "# === PostgreSQL ==="
    case Redis => "# === Redis ==="
    case RabbitMQ => "# === RabbitMQ ==="
    case AIStor => "# === AIStor (S3) ==="
    case MongoDB => "# === MongoDB ==="
    case Signoz => "# === SignOz (OpenTelemetry) ==="
  }

  function Attributes(serviceName: string, environment: string): string
  {
    "service.name=" + serviceName + ",service.namespace=infra-shelf" + ",deployment.environment=" + environment
  }

  function Pairs(cfg: Config): seq<Pair>
  {
    match cfg
    case PostgresConfig(database, username, password) => [
      Pair("DATABASE_URL", "postgres://" + username + ":" + password + "@postgres:5432/" + database),
      Pair("DB_HOST", "postgres"),
      Pair("DB_PORT", "5432"),
      Pair("DB_USERNAME", username),
      Pair("DB_PASSWORD", password),
      Pair("DB_NAME", database)]
    case RedisConfig(username, password, prefix) => [
      Pair("REDIS_URL", "redis://" + username + ":" + password + "@redis:6379/0"),
      Pair("REDIS_HOST", "redis"),
      Pair("REDIS_PORT", "6379"),
      Pair("REDIS_USERNAME", username),
      Pair("REDIS_PASSWORD", password),
      Pair("REDIS_PREFIX", prefix)]
    case RabbitMQConfig(vhost, username, password) => [
      Pair("AMQP_URL", "amqp://" + username + ":" + password + "@rabbitmq:5672/" + PathEscape(vhost)),
      Pair("RABBITMQ_HOST", "rabbitmq"),
      Pair("RABBITMQ_PORT", "5672"),
      Pair("RABBITMQ_USERNAME", username),
      Pair("RABBITMQ_PASSWORD", password),
      Pair("RABBITMQ_VHOST", vhost)]
    case AIStorConfig(bucket, accessKey, secretKey, endpoint) => [
      Pair("S3_ENDPOINT", endpoint),
      Pair("S3_BUCKET", bucket),
      Pair("S3_REGION", "us-east-1"),
      Pair("S3_ACCESS_KEY_ID", accessKey),
      Pair("S3_SECRET_ACCESS_KEY", secretKey),
      Pair("S3_FORCE_PATH_STYLE", "true"),
      Pair("AWS_ENDPOINT_URL", endpoint),
      Pair("AWS_ACCESS_KEY_ID", accessKey),
      Pair("AWS_SECRET_ACCESS_KEY", secretKey),
      Pair("AWS_REGION", "us-east-1")]
    case MongoDBConfig(database, username, password) => [
      Pair("MONGODB_URL",
        "mongodb://" + username + ":" + password + "@mongodb:27017/" + database + "?authSource=" + database),
      Pair("MONGODB_HOST", "mongodb"),
      Pair("MONGODB_PORT", "27017"),
      Pair("MONGODB_USERNAME", username),
      Pair("MONGODB_PASSWORD", password),
      Pair("MONGODB_DATABASE", database)]
    case SignozConfig(serviceName, environment) => [
      Pair("OTEL_EXPORTER_OTLP_ENDPOINT", "http://signoz-otel-collector:4317"),
      Pair("OTEL_EXPORTER_OTLP_PROTOCOL", "grpc"),
      Pair("OTEL_SERVICE_NAME", serviceName),
      Pair("OTEL_RESOURCE_ATTRIBUTES", Attributes(serviceName, environment)),
      Pair("OTEL_TRACES_EXPORTER", "otlp"),
      Pair("OTEL_METRICS_EXPORTER", "otlp"),
      Pair("OTEL_LOGS_EXPORTER", "otlp")]
  }

  function PairLines(ps: seq<Pair>): seq<string>
  {
    if ps == [] then [] else [ps[0].key + "=" + ps[0].value] + PairLines(ps[1..])
  }

  function Body(svc: Svc, cfg: Config): string
  {
    Join([Header(svc)] + PairLines(Pairs(cfg)), "\n")
  }

  // EnvBlocks: the attached services in catalog order.
  function Blocks(services: Services, svcs: seq<Svc>): seq<string>
  {
    if svcs == [] then []
    else (if svcs[0] in services then [Body(svcs[0], services[svcs[0]])] else []) + Blocks(services, svcs[1..])
  }

  function EnvText(entry: AppEntry): string
  {
    Join(Blocks(entry.services, CATALOG), "\n\n")
  }

  // The pairs the file is meant to carry.
  function PairsOf(services: Services, svcs: seq<Svc>): seq<Pair>
  {
    if svcs == [] then []
    else (if svcs[0] in services then Pairs(services[svcs[0]]) else []) + PairsOf(services, svcs[1..])
  }

  function AllPairs(entry: AppEntry): seq<Pair> { PairsOf(entry.services, CATALOG) }

  function WithPairs(env: Env, ps: seq<Pair>): Env
    decreases |ps|
  {
    if ps == [] then env else WithPairs(env[ps[0].key := ps[0].value], ps[1..])
  }

  // The union of the services' pairs.
  function Union(entry: AppEntry): Env { WithPairs(map[], AllPairs(entry)) }

  predicate AllClean(ps: seq<Pair>)
  {
    forall i :: 0 <= i < |ps| ==> CleanValue(ps[i].value)
  }

  predicate AllOneLine(ps: seq<Pair>)
  {
    forall i :: 0 <= i < |ps| ==> '\n' !in ps[i].value
  }

  // ------------------------------------------------------------ distinct keys

  predicate GoodPairKeys(ps: seq<Pair>)
  {
    forall i :: 0 <= i < |ps| ==> GoodKey(ps[i].key)
  }

  predicate DistinctKeys(ps: seq<Pair>)
  {
    forall i, j :: 0 <= i < j < |ps| ==> ps[i].key != ps[j].key
  }

  // The service a key belongs to.
  function Owner(key: string): Option<Svc>
  {
    if |key| < 2 then None
    else if key[0] == 'D' then Some(Postgres)
    else if key[0] == 'R' then Some(if key[1] == 'E' then Redis else RabbitMQ)
    else if key[0] == 'A' then Some(if key[1] == 'M' then RabbitMQ else AIStor)
    else if key[0] == 'S' then Some(AIStor)
    else if key[0] == 'M' then Some(MongoDB)
    else if key[0] == 'O' then Some(Signoz)
    else None
  }

  predicate KeyText(s: string)
  {
    s != "" && forall i :: 0 <= i < |s| ==> 'A' <= s[i] <= 'Z' || '0' <= s[i] <= '9' || s[i] == '_'
  }

  lemma KeysAreGood(cfg: Config)
    ensures GoodPairKeys(Pairs(cfg))
  {
    var ps := Pairs(cfg);
    forall i | 0 <= i < |ps|
      ensures GoodKey(ps[i].key)
    {
      KeysAreText(cfg, i);
    }
  }

  lemma KeysAreText(cfg: Config, i: nat)
    requires i < |Pairs(cfg)|
    ensures KeyText(Pairs(cfg)[i].key)
  {
    match cfg
    case PostgresConfig(_, _, _) => PostgresKeys();
    case RedisConfig(_, _, _) => RedisKeys();
    case RabbitMQConfig(_, _, _) => {
      RabbitMQKeys();
      RabbitMQAccountKeys();
    }
    case AIStorConfig(_, _, _, _) => {
      S3Keys();
      AwsKeys();
    }
    case MongoDBConfig(_, _, _) => {
      MongoDBKeys();
      MongoDBAccountKeys();
    }
    case SignozConfig(_, _) => {
      OtelKeys();
      OtelExporterKeys();
    }
  }

  lemma PostgresKeys()
    ensures KeyText("DATABASE_URL") && KeyText("DB_HOST")
    ensures KeyText("DB_PORT") && KeyText("DB_USERNAME")
    ensures KeyText("DB_PASSWORD") && KeyText("DB_NAME")
  {
  }

  lemma RedisKeys()
    ensures KeyText("REDIS_URL") && KeyText("REDIS_HOST")
    ensures KeyText("REDIS_PORT") && KeyText("REDIS_USERNAME")
    ensures KeyText("REDIS_PASSWORD") && KeyText("REDIS_PREFIX")
  {
  }

  lemma RabbitMQKeys()
    ensures KeyText("AMQP_URL") && KeyText("RABBITMQ_HOST")
    ensures KeyText("RABBITMQ_PORT")
  {
  }

  lemma RabbitMQAccountKeys()
    ensures KeyText("RABBITMQ_USERNAME") && KeyText("RABBITMQ_PASSWORD")
    ensures KeyText("RABBITMQ_VHOST")
  {
  }

  lemma S3Keys()
    ensures KeyText("S3_ENDPOINT") && KeyText("S3_BUCKET")
    ensures KeyText("S3_REGION") && KeyText("S3_ACCESS_KEY_ID")
    ensures KeyText("S3_SECRET_ACCESS_KEY") && KeyText("S3_FORCE_PATH_STYLE")
  {
  }

  lemma AwsKeys()
    ensures KeyText("AWS_ENDPOINT_URL") && KeyText("AWS_ACCESS_KEY_ID")
    ensures KeyText("AWS_SECRET_ACCESS_KEY") && KeyText("AWS_REGION")
  {
  }

  lemma MongoDBKeys()
    ensures KeyText("MONGODB_URL") && KeyText("MONGODB_HOST")
    ensures KeyText("MONGODB_PORT")
  {
  }

  lemma MongoDBAccountKeys()
    ensures KeyText("MONGODB_USERNAME") && KeyText("MONGODB_PASSWORD")
    ensures KeyText("MONGODB_DATABASE")
  {
  }

  lemma OtelKeys()
    ensures KeyText("OTEL_EXPORTER_OTLP_ENDPOINT") && KeyText("OTEL_EXPORTER_OTLP_PROTOCOL")
    ensures KeyText("OTEL_SERVICE_NAME") && KeyText("OTEL_RESOURCE_ATTRIBUTES")
  {
  }

  lemma OtelExporterKeys()
    ensures KeyText("OTEL_TRACES_EXPORTER") && KeyText("OTEL_METRICS_EXPORTER")
    ensures KeyText("OTEL_LOGS_EXPORTER")
  {
  }

  lemma KeysAreDistinct(cfg: Config)
    ensures DistinctKeys(Pairs(cfg))
  {
    match cfg
    case PostgresConfig(_, _, _) => PostgresKeysAreDistinct(cfg);
    case RedisConfig(_, _, _) => RedisKeysAreDistinct(cfg);
    case RabbitMQConfig(_, _, _) => RabbitMQKeysAreDistinct(cfg);
    case AIStorConfig(_, _, _, _) => AIStorKeysAreDistinct(cfg);
    case MongoDBConfig(_, _, _) => MongoDBKeysAreDistinct(cfg);
    case SignozConfig(_, _) => SignozKeysAreDistinct(cfg);
  }

  lemma PostgresKeysAreDistinct(cfg: Config)
    requires cfg.PostgresConfig?
    ensures DistinctKeys(Pairs(cfg))
  {
  }

  lemma RedisKeysAreDistinct(cfg: Config)
    requires cfg.RedisConfig?
    ensures DistinctKeys(Pairs(cfg))
  {
  }

  lemma RabbitMQKeysAreDistinct(cfg: Config)
    requires cfg.RabbitMQConfig?
    ensures DistinctKeys(Pairs(cfg))
  {
  }

  lemma MongoDBKeysAreDistinct(cfg: Config)
    requires cfg.MongoDBConfig?
    ensures DistinctKeys(Pairs(cfg))
  {
  }

  lemma SignozKeysAreDistinct(cfg: Config)
    requires cfg.SignozConfig?
    ensures DistinctKeys(Pairs(cfg))
  {
  }

  lemma AIStorKeysAreDistinct(cfg: Config)
    requires cfg.AIStorConfig?
    ensures DistinctKeys(Pairs(cfg))
  {
  }

  lemma KeysAreOwned(svc: Svc, cfg: Config)
    requires Registry.Fits(svc, cfg)
    ensures Owned(Pairs(cfg), svc)
  {
    match cfg
    case PostgresConfig(_, _, _) => PostgresKeysAreOwned(cfg);
    case RedisConfig(_, _, _) => RedisKeysAreOwned(cfg);
    case RabbitMQConfig(_, _, _) => RabbitMQKeysAreOwned(cfg);
    case AIStorConfig(_, _, _, _) => AIStorKeysAreOwned(cfg);
    case MongoDBConfig(_, _, _) => MongoDBKeysAreOwned(cfg);
    case SignozConfig(_, _) => SignozKeysAreOwned(cfg);
  }

  predicate Owned(ps: seq<Pair>, svc: Svc)
  {
    forall i :: 0 <= i < |ps| ==> Owner(ps[i].key) == Some(svc)
  }

  lemma PostgresKeysAreOwned(cfg: Config)
    requires cfg.PostgresConfig?
    ensures Owned(Pairs(cfg), Postgres)
  {
  }

  lemma RedisKeysAreOwned(cfg: Config)
    requires cfg.RedisConfig?
    ensures Owned(Pairs(cfg), Redis)
  {
  }

  lemma RabbitMQKeysAreOwned(cfg: Config)
    requires cfg.RabbitMQConfig?
    ensures Owned(Pairs(cfg), RabbitMQ)
  {
  }

  lemma AIStorKeysAreOwned(cfg: Config)
    requires cfg.AIStorConfig?
    ensures Owned(Pairs(cfg), AIStor)
  {
  }

  lemma MongoDBKeysAreOwned(cfg: Config)
    requires cfg.MongoDBConfig?
    ensures Owned(Pairs(cfg), MongoDB)
  {
  }

  lemma SignozKeysAreOwned(cfg: Config)
    requires cfg.SignozConfig?
    ensures Owned(Pairs(cfg), Signoz)
  {
  }

  ghost predicate PairsFit(services: Services, svcs: seq<Svc>)
  {
    forall s :: s in svcs && s in services ==> Registry.Fits(s, services[s])
  }

  // No key is shared between services or repeated within one.
  lemma {:induction false} PairsOfKeys(services: Services, svcs: seq<Svc>)
    requires Distinct(svcs) && PairsFit(services, svcs)
    ensures var ps := PairsOf(services, svcs);
      && DistinctKeys(ps) && GoodPairKeys(ps)
      && forall i :: 0 <= i < |ps| ==> Owner(ps[i].key).Some? && Owner(ps[i].key).value in svcs
  {
    if svcs != [] {
      PairsOfKeys(services, svcs[1..]);
      assert svcs[0] !in svcs[1..];
      if svcs[0] in services {
        KeysAreDistinct(services[svcs[0]]);
        KeysAreGood(services[svcs[0]]);
        KeysAreOwned(svcs[0], services[svcs[0]]);
      }
    }
  }

  // ------------------------------------------------------- parsing the lines

  function ReadPairs(ps: seq<Pair>): seq<Pair>
  {
    if ps == [] then [] else [Pair(ps[0].key, Read(ps[0].value))] + ReadPairs(ps[1..])
  }

  lemma {:induction false} ReadPairsAt(ps: seq<Pair>)
    ensures |ReadPairs(ps)| == |ps|
    ensures forall i :: 0 <= i < |ps| ==> ReadPairs(ps)[i] == Pair(ps[i].key, Read(ps[i].value))
  {
    if ps != [] {
      ReadPairsAt(ps[1..]);
    }
  }

  lemma {:induction false} ReadPairsConcat(a: seq<Pair>, b: seq<Pair>)
    ensures ReadPairs(a + b) == ReadPairs(a) + ReadPairs(b)
  {
    if a == [] {
      assert a + b == b;
    } else {
      assert (a + b)[1..] == a[1..] + b;
      ReadPairsConcat(a[1..], b);
    }
  }

  lemma {:induction false} WithPairsConcat(env: Env, a: seq<Pair>, b: seq<Pair>)
    ensures WithPairs(env, a + b) == WithPairs(WithPairs(env, a), b)
    decreases |a|
  {
    if a == [] {
      assert a + b == b;
    } else {
      assert (a + b)[1..] == a[1..] + b;
      WithPairsConcat(env[a[0].key := a[0].value], a[1..], b);
    }
  }

  // The lines of printed pairs add the pairs, as read.
  lemma {:induction false} PairLinesAdd(env: Env, ps: seq<Pair>)
    requires GoodPairKeys(ps)
    ensures WithLines(env, PairLines(ps)) == WithPairs(env, ReadPairs(ps))
    decreases |ps|
  {
    if ps != [] {
      PairLine(ps[0].key, ps[0].value);
      var next := env[ps[0].key := Read(ps[0].value)];
      PairLinesAdd(next, ps[1..]);
      assert PairLines(ps)[1..] == PairLines(ps[1..]);
      assert ReadPairs(ps)[1..] == ReadPairs(ps[1..]);
      assert WithLine(env, PairLines(ps)[0]) == next;
    }
  }

  lemma {:induction false} PairLinesAreLines(ps: seq<Pair>)
    requires GoodPairKeys(ps) && AllOneLine(ps)
    ensures |PairLines(ps)| == |ps|
    ensures forall i :: 0 <= i < |ps| ==> '\n' !in PairLines(ps)[i]
  {
    if ps != [] {
      PairLinesAreLines(ps[1..]);
    }
  }

  lemma HeaderIsComment(svc: Svc)
    ensures Header(svc) != "" && Header(svc)[0] == '#' && '\n' !in Header(svc)
  {
  }

  // One block adds its service's pairs.
  lemma BodyAdds(env: Env, svc: Svc, cfg: Config)
    requires AllOneLine(Pairs(cfg))
    ensures WithLines(env, Split(Body(svc, cfg), '\n')) == WithPairs(env, ReadPairs(Pairs(cfg)))
  {
    var ps := Pairs(cfg);
    var lines := [Header(svc)] + PairLines(ps);
    KeysAreGood(cfg);
    PairLinesAreLines(ps);
    HeaderIsComment(svc);
    SplitJoin(lines, '\n');
    HeaderLine(Header(svc));
    assert lines[1..] == PairLines(ps);
    PairLinesAdd(env, ps);
  }

  // A blank line between blocks adds nothing.
  lemma {:induction false} JoinedBlocksAdd(env: Env, a: string, rest: string)
    ensures WithLines(env, Split(a + "\n\n" + rest, '\n'))
      == WithLines(WithLines(env, Split(a, '\n')), Split(rest, '\n'))
  {
    var tail := "" + "\n" + rest;
    assert a + "\n\n" + rest == a + "\n" + tail;
    SplitConcat(a, tail, '\n');
    SplitConcat("", rest, '\n');
    WithLinesConcat(env, Split(a, '\n'), Split(tail, '\n'));
    var mid := WithLines(env, Split(a, '\n'));
    assert Split(tail, '\n') == [""] + Split(rest, '\n');
    WithLinesConcat(mid, [""], Split(rest, '\n'));
    assert WithLine(mid, "") == mid;
    assert [""][1..] == [];
  }

  lemma {:induction false} BlocksAdd(env: Env, services: Services, svcs: seq<Svc>)
    requires AllOneLine(PairsOf(services, svcs))
    ensures WithLines(env, Split(Join(Blocks(services, svcs), "\n\n"), '\n'))
      == WithPairs(env, ReadPairs(PairsOf(services, svcs)))
    decreases |svcs|
  {
    if svcs == [] {
      assert Split("", '\n') == [""];
      assert WithLine(env, "") == env;
      assert [""][1..] == [];
    } else {
      var rest := svcs[1..];
      var later := PairsOf(services, rest);
      if svcs[0] !in services {
        assert PairsOf(services, svcs) == later && Blocks(services, svcs) == Blocks(services, rest);
        BlocksAdd(env, services, rest);
      } else {
        var cfg := services[svcs[0]];
        var body := Body(svcs[0], cfg);
        var ps := Pairs(cfg);
        assert PairsOf(services, svcs) == ps + later;
        SplitOneLine(ps, later);
        BodyAdds(env, svcs[0], cfg);
        ReadPairsConcat(ps, later);
        WithPairsConcat(env, ReadPairs(ps), ReadPairs(later));
        var mid := WithPairs(env, ReadPairs(ps));
        BlocksAdd(mid, services, rest);
        if Blocks(services, rest) == [] {
          assert Split("", '\n') == [""];
          assert WithLine(mid, "") == mid && [""][1..] == [];
        } else {
          JoinedBlocksAdd(env, body, Join(Blocks(services, rest), "\n\n"));
        }
      }
    }
  }

  lemma SplitOneLine(a: seq<Pair>, b: seq<Pair>)
    requires AllOneLine(a + b)
    ensures AllOneLine(a) && AllOneLine(b)
  {
    assert forall i :: 0 <= i < |a| ==> (a + b)[i] == a[i];
    assert forall i :: 0 <= i < |b| ==> (a + b)[|a| + i] == b[i];
  }

  // --------------------------------------------------------------- round trip

  lemma {:induction false} WithPairsAt(env: Env, ps: seq<Pair>, key: string)
    requires DistinctKeys(ps)
    ensures forall i :: 0 <= i < |ps| ==>
      ps[i].key in WithPairs(env, ps) && WithPairs(env, ps)[ps[i].key] == ps[i].value
    ensures (forall i :: 0 <= i < |ps| ==> ps[i].key != key) ==>
      (key in WithPairs(env, ps) <==> key in env) && (key in env ==> WithPairs(env, ps)[key] == env[key])
    decreases |ps|
  {
    if ps != [] {
      var next := env[ps[0].key := ps[0].value];
      WithPairsAt(next, ps[1..], key);
      WithPairsAt(next, ps[1..], ps[0].key);
      assert forall i :: 1 <= i < |ps| ==> ps[1..][i - 1] == ps[i];
    }
  }

  // A value that is not clean is read as another.
  lemma UncleanIsChanged(ps: seq<Pair>, i: nat)
    requires DistinctKeys(ps) && AllOneLine(ps) && i < |ps| && !CleanValue(ps[i].value)
    ensures WithPairs(map[], ReadPairs(ps)) != WithPairs(map[], ps)
  {
    ReadPairsAt(ps);
    var read := ReadPairs(ps);
    WithPairsAt(map[], ps, "");
    WithPairsAt(map[], read, "");
    ReadsBackIff(ps[i].value);
    assert read[i].key == ps[i].key && read[i].value != ps[i].value;
  }

  // A value with a newline is never read.
  lemma NewlineIsLost(text: string, ps: seq<Pair>, i: nat)
    requires DistinctKeys(ps) && i < |ps| && '\n' in ps[i].value
    ensures ParsedEnv(text) != WithPairs(map[], ps)
  {
    WithPairsAt(map[], ps, "");
    ValuesAreOneLine(map[], Split(text, '\n'), ps[i].key);
  }

  lemma RoundTripIff(services: Services, svcs: seq<Svc>)
    requires Distinct(svcs) && PairsFit(services, svcs)
    ensures ParsedEnv(Join(Blocks(services, svcs), "\n\n")) == WithPairs(map[], PairsOf(services, svcs))
      <==> AllClean(PairsOf(services, svcs))
  {
    var ps := PairsOf(services, svcs);
    PairsOfKeys(services, svcs);
    if AllClean(ps) {
      BlocksAdd(map[], services, svcs);
      CleanPairsReadBack(ps);
    } else if AllOneLine(ps) {
      BlocksAdd(map[], services, svcs);
      var i :| 0 <= i < |ps| && !CleanValue(ps[i].value);
      UncleanIsChanged(ps, i);
    } else {
      var i :| 0 <= i < |ps| && '\n' in ps[i].value;
      NewlineIsLost(Join(Blocks(services, svcs), "\n\n"), ps, i);
    }
  }

  // Printing and then parsing gives back exactly the union of the services'
  // pairs when every printed value fits on a line, is trimmed and is not
  // wrapped in quotes, and never otherwise.
  lemma EnvFileReadsBackIff(entry: AppEntry)
    requires WellTyped(entry)
    ensures ParsedEnv(EnvText(entry)) == Union(entry) <==> AllClean(AllPairs(entry))
  {
    RoundTripIff(entry.services, CATALOG);
  }

  // The union holds every printed pair under its own key: nothing of one
  // service overwrites another's.
  lemma UnionHoldsEveryPair(entry: AppEntry)
    requires WellTyped(entry)
    ensures var ps := AllPairs(entry);
      && (forall i :: 0 <= i < |ps| ==> ps[i].key in Union(entry) && Union(entry)[ps[i].key] == ps[i].value)
      && (forall i, j :: 0 <= i < j < |ps| ==> ps[i].key != ps[j].key)
  {
    PairsOfKeys(entry.services, CATALOG);
    WithPairsAt(map[], AllPairs(entry), "");
  }

  // Clean fields give clean values.
  predicate CleanFields(cfg: Config)
  {
    match cfg
    case PostgresConfig(database, username, password) =>
      CleanValue(database) && CleanValue(username) && CleanValue(password)
    case RedisConfig(username, password, prefix) => CleanValue(username) && CleanValue(password) && CleanValue(prefix)
    case RabbitMQConfig(vhost, username, password) => CleanValue(vhost) && CleanValue(username) && CleanValue(password)
    case AIStorConfig(bucket, accessKey, secretKey, endpoint) =>
      CleanValue(bucket) && CleanValue(accessKey) && CleanValue(secretKey) && CleanValue(endpoint)
    case MongoDBConfig(database, username, password) =>
      CleanValue(database) && CleanValue(username) && CleanValue(password)
    case SignozConfig(serviceName, environment) => CleanValue(serviceName) && CleanValue(environment)
  }

  // Text between a literal start and an end without outer space.
  predicate Opens(s: string)
  {
    s != "" && !IsSpace(s[0]) && s[0] != '"' && s[0] != '\'' && '\n' !in s
  }

  predicate Closes(s: string)
  {
    '\n' !in s && (s == "" || !IsSpace(s[|s| - 1]))
  }

  lemma UrlIsClean(scheme: string, username: string, password: string, host: string, tail: string)
    requires Opens(scheme) && Closes(scheme) && host != "" && Closes(host) && Closes(tail)
    requires CleanValue(username) && CleanValue(password)
    ensures CleanValue(scheme + username + ":" + password + host + tail)
  {
    assert scheme + (username + ":" + password + host) + tail == scheme + username + ":" + password + host + tail;
  }

  lemma PostgresValues(cfg: Config)
    requires cfg.PostgresConfig? && CleanFields(cfg)
    ensures AllClean(Pairs(cfg))
  {
    UrlIsClean("postgres://", cfg.username, cfg.password, "@postgres:5432/", cfg.database);
  }

  lemma RedisValues(cfg: Config)
    requires cfg.RedisConfig? && CleanFields(cfg)
    ensures AllClean(Pairs(cfg))
  {
    UrlIsClean("redis://", cfg.username, cfg.password, "@redis:6379/0", "");
    var url := "redis://" + cfg.username + ":" + cfg.password + "@redis:6379/0";
    assert url + "" == url;
  }

  lemma RabbitMQValues(cfg: Config)
    requires cfg.RabbitMQConfig? && CleanFields(cfg)
    ensures AllClean(Pairs(cfg))
  {
    EscapedIsOneLine(cfg.vhost);
    UrlIsClean("amqp://", cfg.username, cfg.password, "@rabbitmq:5672/", PathEscape(cfg.vhost));
  }

  lemma AIStorValues(cfg: Config)
    requires cfg.AIStorConfig? && CleanFields(cfg)
    ensures AllClean(Pairs(cfg))
  {
  }

  lemma MongoDBValues(cfg: Config)
    requires cfg.MongoDBConfig? && CleanFields(cfg)
    ensures AllClean(Pairs(cfg))
  {
    var tail := cfg.database + "?authSource=" + cfg.database;
    assert Closes(tail) by {
      if cfg.database != "" {
      } else {
        assert tail == "?authSource=";
      }
    }
    UrlIsClean("mongodb://", cfg.username, cfg.password, "@mongodb:27017/", tail);
    var head := "mongodb://" + cfg.username + ":" + cfg.password + "@mongodb:27017/";
    assert head + tail == head + cfg.database + "?authSource=" + cfg.database;
  }

  lemma TwoClauses(start: string, a: string, b: string, c: string, end: string)
    requires Opens(start) && Closes(start) && '\n' !in a && Closes(b) && b != "" && Closes(c) && c != "" && Closes(end)
    ensures CleanValue(start + a + b + c + end)
  {
    var s := start + a + b + c + end;
    assert s[0] == start[0];
    assert s[|s| - 1] == if end != "" then end[|end| - 1] else c[|c| - 1];
  }

  lemma AttributesAreClean(serviceName: string, environment: string)
    requires CleanValue(serviceName) && CleanValue(environment)
    ensures CleanValue(Attributes(serviceName, environment))
  {
    ClauseLiterals();
    TwoClauses("service.name=", serviceName, ",service.namespace=infra-shelf", ",deployment.environment=", environment);
  }

  lemma ClauseLiterals()
    ensures Opens("service.name=") && Closes("service.name=")
    ensures Closes(",service.namespace=infra-shelf") && Closes(",deployment.environment=")
  {
  }

  lemma SignozLiterals()
    ensures CleanValue("http://signoz-otel-collector:4317") && CleanValue("grpc") && CleanValue("otlp")
  {
  }

  lemma SignozValues(cfg: Config)
    requires cfg.SignozConfig? && CleanFields(cfg)
    ensures AllClean(Pairs(cfg))
  {
    SignozLiterals();
    AttributesAreClean(cfg.serviceName, cfg.environment);
  }

  lemma CleanFieldsPrintClean(cfg: Config)
    requires CleanFields(cfg)
    ensures AllClean(Pairs(cfg))
  {
    match cfg
    case PostgresConfig(_, _, _) => PostgresValues(cfg);
    case RedisConfig(_, _, _) => RedisValues(cfg);
    case RabbitMQConfig(_, _, _) => RabbitMQValues(cfg);
    case AIStorConfig(_, _, _, _) => AIStorValues(cfg);
    case MongoDBConfig(_, _, _) => MongoDBValues(cfg);
    case SignozConfig(_, _) => SignozValues(cfg);
  }

  lemma {:induction false} AllFieldsClean(services: Services, svcs: seq<Svc>)
    requires forall s :: s in svcs && s in services ==> CleanFields(services[s])
    ensures AllClean(PairsOf(services, svcs))
  {
    if svcs != [] {
      AllFieldsClean(services, svcs[1..]);
      if svcs[0] in services {
        CleanFieldsPrintClean(services[svcs[0]]);
      }
    }
  }

  // An entry whose values have no newline, outer whitespace or wrapping quotes
  // reads back as printed.
  lemma CleanEntriesReadBack(entry: AppEntry)
    requires WellTyped(entry) && forall s :: s in entry.services ==> CleanFields(entry.services[s])
    ensures ParsedEnv(EnvText(entry)) == Union(entry)
  {
    AllFieldsClean(entry.services, CATALOG);
    EnvFileReadsBackIff(entry);
  }

  // The alphabet of names, namespaces, endpoints and generated passwords.
  predicate Quoteless(s: string)
  {
    forall i :: 0 <= i < |s| ==> 'a' <= s[i] <= 'z' || 'A' <= s[i] <= 'Z' || '0' <= s[i] <= '9' || s[i] in "-_:/="
  }

  lemma QuotelessIsClean(s: string)
    requires Quoteless(s)
    ensures CleanValue(s)
  {
  }

  // What Provision returns reads back, for a URL-safe password.
  lemma ProvisionedConfigIsClean(svc: Svc, app: string, password: string, opts: ProvisionOptions)
    requires ValidName(app) && Quoteless(password)
    requires svc == Signoz ==>
      Quoteless(opts.signozServiceName) && Quoteless(opts.signozEnv) && Quoteless(opts.defaultEnv)
    ensures CleanFields(ProvisionedConfig(svc, app, password, opts))
  {
    QuotelessIsClean(app);
    QuotelessIsClean(password);
    QuotelessIsClean(KeyPrefix(app, opts.fullAccess));
    assert Quoteless(ENDPOINT);
    QuotelessIsClean(ENDPOINT);
    if svc == Signoz {
      QuotelessIsClean(opts.signozServiceName);
      QuotelessIsClean(opts.signozEnv);
      QuotelessIsClean(opts.defaultEnv);
      assert Quoteless("dev");
      QuotelessIsClean("dev");
    }
  }

  // EnvBlocks and EnvFile.
  method EnvBlocks(entry: AppEntry) returns (bodies: seq<string>)
    ensures bodies == Blocks(entry.services, CATALOG)
  {
    bodies := BlocksFrom(entry.services, CATALOG);
  }

  method BlocksFrom(services: Services, svcs: seq<Svc>) returns (bodies: seq<string>)
    ensures bodies == Blocks(services, svcs)
  {
    bodies := [];
    var i := 0;
    while i < |svcs|
      invariant 0 <= i <= |svcs|
      invariant bodies + Blocks(services, svcs[i..]) == Blocks(services, svcs)
    {
      assert svcs[i..][1..] == svcs[i + 1..];
      if svcs[i] in services {
        var body := Body(svcs[i], services[svcs[i]]);
        Regroup(bodies, [body], Blocks(services, svcs[i + 1..]));
        bodies := bodies + [body];
      }
      i := i + 1;
    }
  }

  method EnvFile(entry: AppEntry) returns (text: string)
    ensures text == EnvText(entry)
    ensures WellTyped(entry) ==> (ParsedEnv(text) == Union(entry) <==> AllClean(AllPairs(entry)))
  {
    var bodies := EnvBlocks(entry);
    text := Join(bodies, "\n\n");
    if WellTyped(entry) {
      EnvFileReadsBackIff(entry);
    }
  }

  lemma CleanPairsReadBack(ps: seq<Pair>)
    requires AllClean(ps)
    ensures ReadPairs(ps) == ps
  {
    ReadPairsAt(ps);
    forall i | 0 <= i < |ps|
      ensures ReadPairs(ps)[i] == ps[i]
    {
      ReadsBackIff(ps[i].value);
    }
  }
}
