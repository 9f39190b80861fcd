/**
 * The mysqli link behind the asynchronous connection: how `_connect` reads
 * the connection parameters (aliases, defaults, SSL flags), and the
 * guards and steps of `connect`, `reConnect` and `_realConnect`.
 *
 * The native `mysqli` calls are effects; what `real_connect` reports is a
 * parameter.
 */
module ParentConnection {
  import opened Wrappers
  import opened Php

  // ---------------------------------------------------------------------------
  // _connect: reading the parameters
  // ---------------------------------------------------------------------------

  /** The first name in `names` that is set in `p` gives the value; null when none is. */
  function FindParameterValue(p: seq<Entry>, names: seq<string>): (r: Value)
    decreases |names|
  {
    if |names| == 0 then Null
    else if IsSet(p, StrKey(names[0])) then Lookup(p, StrKey(names[0])).value
    else FindParameterValue(p, names[1..])
  }

  /** Whether no name before position `i` is set. */
  predicate NoneSetBefore(p: seq<Entry>, names: seq<string>, i: int)
    requires 0 <= i <= |names|
  {
    forall j :: 0 <= j < i ==> !IsSet(p, StrKey(names[j]))
  }

  /**
   * The lookup takes the highest-priority alias that is set: if the alias
   * at `i` is set and none before it is, that alias's value; if none is set,
   * null.
   */
  lemma {:induction false} FirstPresentAlias(p: seq<Entry>, names: seq<string>, i: nat)
    requires i <= |names| && NoneSetBefore(p, names, i)
    ensures i < |names| && IsSet(p, StrKey(names[i])) ==>
      Some(FindParameterValue(p, names)) == Lookup(p, StrKey(names[i]))
    ensures i == |names| ==> FindParameterValue(p, names) == Null
    decreases i
  {
    if i > 0 {
      assert !IsSet(p, StrKey(names[0]));
      FirstPresentAlias(p, names[1..], i - 1);
    } else if |names| > 0 && !IsSet(p, StrKey(names[0])) {
      assert !(i < |names| && IsSet(p, StrKey(names[i])));
    }
  }

  /** The value found is set under one of the aliases, or null. */
  lemma {:induction false} FoundUnderAlias(p: seq<Entry>, names: seq<string>)
    ensures FindParameterValue(p, names) == Null ||
      exists i :: 0 <= i < |names| && IsSet(p, StrKey(names[i])) && Lookup(p, StrKey(names[i])) == Some(FindParameterValue(p, names))
    decreases |names|
  {
    if |names| > 0 && !IsSet(p, StrKey(names[0])) {
      FoundUnderAlias(p, names[1..]);
      if FindParameterValue(p, names) != Null {
        var i :| 0 <= i < |names[1..]| && IsSet(p, StrKey(names[1..][i])) && Lookup(p, StrKey(names[1..][i])) == Some(FindParameterValue(p, names));
        assert names[i + 1] == names[1..][i];
      }
    } else if |names| > 0 {
      assert IsSet(p, StrKey(names[0]));
    }
  }

  const HostnameAliases: seq<string> := ["hostname", "host"]
  const UsernameAliases: seq<string> := ["username", "user"]
  const PasswordAliases: seq<string> := ["password", "passwd", "pw"]
  const DatabaseAliases: seq<string> := ["database", "dbname", "db", "schema"]

  /** The two client flags `_connect` may ask for. */
  datatype ClientFlag = ClientSsl | SslDontVerifyServerCert

  /** What `_connect` stores for `real_connect`. */
  datatype RealConnectParams = RealConnectParams(
    hostname: Value, username: Value, password: Value, database: Value,
    port: Option<int>, socket: Value, initStatements: Value,
    flags: Option<set<ClientFlag>>)

  /** The SSL settings passed to `ssl_set`, each defaulting to the empty string. */
  datatype SslSettings = SslSettings(clientKey: Value, clientCert: Value, caCert: Value, caPath: Value, cipher: Value)

  function SslOf(p: seq<Entry>): SslSettings {
    SslSettings(
      Coalesce(p, StrKey("client_key"), Str("")), Coalesce(p, StrKey("client_cert"), Str("")),
      Coalesce(p, StrKey("ca_cert"), Str("")), Coalesce(p, StrKey("ca_path"), Str("")),
      Coalesce(p, StrKey("cipher"), Str("")))
  }

  /** Whether SSL is asked for: `use_ssl` is truthy and no socket is given. */
  predicate UsesSsl(p: seq<Entry>) {
    Truthy(Coalesce(p, StrKey("use_ssl"), Int(0))) && !Truthy(Coalesce(p, StrKey("socket"), Null))
  }

  /**
   * Whether the driver options hold the don't-verify flag as a key.
   * `dontVerifyKey` is the integer value of the extension's
   * `MYSQLI_CLIENT_SSL_DONT_VERIFY_SERVER_CERT`.
   */
  predicate DontVerify(p: seq<Entry>, dontVerifyKey: int) {
    IsSet(p, StrKey("driver_options"))
    && var opts := Lookup(p, StrKey("driver_options")).value;
    opts.Arr? && IsSet(opts.entries, IntKey(dontVerifyKey))
  }

  /** The flags: none without SSL; the SSL flag, plus don't-verify when the driver options ask for it. */
  function Flags(p: seq<Entry>, dontVerifyKey: int): (r: Option<set<ClientFlag>>)
    ensures r.Some? <==> UsesSsl(p)
    ensures r.Some? ==> ClientSsl in r.value
    ensures r.Some? ==> (SslDontVerifyServerCert in r.value <==> DontVerify(p, dontVerifyKey))
  {
    if UsesSsl(p) then
      Some(if DontVerify(p, dontVerifyKey) then {ClientSsl, SslDontVerifyServerCert} else {ClientSsl})
    else None
  }

  /** `_connect()`'s reading of the connection parameters. */
  function ReadParams(p: seq<Entry>, dontVerifyKey: int): (r: RealConnectParams)
    ensures r.hostname == FindParameterValue(p, HostnameAliases)
    ensures r.username == FindParameterValue(p, UsernameAliases)
    ensures r.password == FindParameterValue(p, PasswordAliases)
    ensures r.database == FindParameterValue(p, DatabaseAliases)
    ensures r.port.Some? <==> IsSet(p, StrKey("port"))
    ensures r.port.Some? ==> r.port.value == IntVal(Lookup(p, StrKey("port")).value)
    ensures !IsSet(p, StrKey("socket")) ==> r.socket == Null
    ensures !IsSet(p, StrKey("initStatements")) ==> r.initStatements == Arr([])
    ensures r.flags == Flags(p, dontVerifyKey)
  {
    RealConnectParams(
      FindParameterValue(p, HostnameAliases),
      FindParameterValue(p, UsernameAliases),
      FindParameterValue(p, PasswordAliases),
      FindParameterValue(p, DatabaseAliases),
      if IsSet(p, StrKey("port")) then Some(IntVal(Lookup(p, StrKey("port")).value)) else None,
      Coalesce(p, StrKey("socket"), Null),
      Coalesce(p, StrKey("initStatements"), Arr([])),
      Flags(p, dontVerifyKey))
  }

  /** `host` is used only when `hostname` is not set; `schema` only when no other database alias is. */
  lemma AliasPriority(p: seq<Entry>, dontVerifyKey: int)
    ensures IsSet(p, StrKey("hostname")) ==> Some(ReadParams(p, dontVerifyKey).hostname) == Lookup(p, StrKey("hostname"))
    ensures !IsSet(p, StrKey("hostname")) && IsSet(p, StrKey("host")) ==>
      Some(ReadParams(p, dontVerifyKey).hostname) == Lookup(p, StrKey("host"))
    ensures !IsSet(p, StrKey("database")) && !IsSet(p, StrKey("dbname")) && !IsSet(p, StrKey("db")) && IsSet(p, StrKey("schema")) ==>
      Some(ReadParams(p, dontVerifyKey).database) == Lookup(p, StrKey("schema"))
  {
    if !IsSet(p, StrKey("hostname")) && IsSet(p, StrKey("host")) {
      FirstPresentAlias(p, HostnameAliases, 1);
    }
    if !IsSet(p, StrKey("database")) && !IsSet(p, StrKey("dbname")) && !IsSet(p, StrKey("db")) && IsSet(p, StrKey("schema")) {
      FirstPresentAlias(p, DatabaseAliases, 3);
    }
  }

  /** With a socket, or without `use_ssl`, no flags are passed at all. */
  lemma SocketDisablesSsl(p: seq<Entry>, dontVerifyKey: int, socket: string)
    requires Lookup(p, StrKey("socket")) == Some(Str(socket)) && socket != "" && socket != "0"
    ensures ReadParams(p, dontVerifyKey).flags == None
  {
  }

  // ---------------------------------------------------------------------------
  // connect, reConnect, _realConnect
  // ---------------------------------------------------------------------------

  /** The native calls, in order. */
  datatype LinkEffect =
    | CreateResource
    | SslSet(settings: SslSettings)
    | NativeConnect(params: RealConnectParams)
    | SetCharset(charset: Value)
    | InitQuery(statement: Value)

  /** What the native `real_connect` reports. */
  datatype ConnectReport = Connected | ConnectThrew | ConnectFailed

  /**
   * The exceptions: `LogicException`, `RuntimeException('Connection error',
   * errno)` around an `ErrorException`, and the `mysqli_sql_exception` of an
   * init statement (mysqli reports errors by exception by default).
   */
  datatype LinkError =
    | NoResource(message: string)
    | ConnectionError(message: string, code: int, previousMessage: string, previousCode: int)
    | InitStatementFailed(statement: Value, code: int, message: string)

  const ReconnectMessage: string := "mysqli::reConnect - connection resource must be a valid mysqli object"

  /** The link: its connection parameters, whether it holds a mysqli resource, and what `_connect` stored. */
  datatype Link = Link(connectionParameters: seq<Entry>, hasResource: bool, realParams: RealConnectParams)

  /** The statements run after connecting: the values of the array, or nothing when it is not one. */
  function InitQueries(initStatements: Value): (r: seq<LinkEffect>)
    ensures initStatements.Arr? ==> |r| == |initStatements.entries|
    ensures initStatements.Arr? ==> forall i :: 0 <= i < |r| ==> r[i] == InitQuery(initStatements.entries[i].value)
    ensures !initStatements.Arr? ==> r == []
  {
    if initStatements.Arr? then
      seq(|initStatements.entries|, i requires 0 <= i < |initStatements.entries| => InitQuery(initStatements.entries[i].value))
    else []
  }

  /** The first init statement that throws: its position among them, and the exception's code and message. */
  datatype InitFailure = InitFailure(index: nat, code: int, message: string)

  /**
   * What the native side reports for one `_realConnect`: the connect's
   * outcome and error, and which init statement throws, if any (a position
   * past the last statement means none does).
   */
  datatype Report = Report(report: ConnectReport, errno: int, error: string, initFailure: Option<InitFailure>)

  /** Whether one of the init statements throws. */
  predicate InitFails(params: RealConnectParams, report: Report) {
    report.initFailure.Some? && report.initFailure.value.index < |InitQueries(params.initStatements)|
  }

  /**
   * `_realConnect()` as written: the charset check reads `$p`, which is not
   * defined in this method, so `set_charset` is never called; an init
   * statement that throws ends it, the link being connected already.
   */
  function RealConnectAsWritten(params: RealConnectParams, report: Report): (r: Result<seq<LinkEffect>, LinkError>)
    ensures r.Err? <==> report.report != Connected || InitFails(params, report)
    ensures report.report != Connected ==> r == Err(ConnectionError("Connection error", report.errno, report.error, report.errno))
    ensures report.report == Connected && InitFails(params, report) ==> var f := report.initFailure.value;
      r == Err(InitStatementFailed(params.initStatements.entries[f.index].value, f.code, f.message))
    ensures r.Ok? ==> r.value == [NativeConnect(params)] + InitQueries(params.initStatements)
  {
    if report.report != Connected then Err(ConnectionError("Connection error", report.errno, report.error, report.errno))
    else if InitFails(params, report) then
      var f := report.initFailure.value;
      Err(InitStatementFailed(InitQueries(params.initStatements)[f.index].statement, f.code, f.message))
    else Ok([NativeConnect(params)] + InitQueries(params.initStatements))
  }

  /** The intended `_realConnect()`: a non-empty `charset` parameter is applied before the init statements. */
  function RealConnect(p: seq<Entry>, params: RealConnectParams, report: Report): (r: Result<seq<LinkEffect>, LinkError>)
    ensures RealConnectAsWritten(params, report).Err? ==> r == RealConnectAsWritten(params, report)
    ensures r.Ok? && Truthy(Coalesce(p, StrKey("charset"), Null)) ==>
      r.value == [NativeConnect(params), SetCharset(Lookup(p, StrKey("charset")).value)] + InitQueries(params.initStatements)
    ensures r.Ok? && !Truthy(Coalesce(p, StrKey("charset"), Null)) ==> r == RealConnectAsWritten(params, report)
  {
    var charset := Coalesce(p, StrKey("charset"), Null);
    match RealConnectAsWritten(params, report)
    case Err(e) => Err(e)
    case Ok(_) =>
      if Truthy(charset) then Ok([NativeConnect(params), SetCharset(charset)] + InitQueries(params.initStatements))
      else Ok([NativeConnect(params)] + InitQueries(params.initStatements))
  }

  /** A `charset` parameter is lost as written and applied as intended. */
  lemma CharsetIgnored(params: RealConnectParams)
    ensures var p := [Entry(StrKey("charset"), Str("utf8mb4"))];
      var report := Report(Connected, 0, "", None);
      && SetCharset(Str("utf8mb4")) !in RealConnectAsWritten(params, report).value
      && SetCharset(Str("utf8mb4")) in RealConnect(p, params, report).value
  {
    var p := [Entry(StrKey("charset"), Str("utf8mb4"))];
    var report := Report(Connected, 0, "", None);
    assert Lookup(p, StrKey("charset")) == Some(Str("utf8mb4"));
    var e := RealConnectAsWritten(params, report).value;
    assert e == [NativeConnect(params)] + InitQueries(params.initStatements);
    forall i | 0 <= i < |e| ensures e[i] != SetCharset(Str("utf8mb4")) {
      if i > 0 {
        assert e[i] == InitQueries(params.initStatements)[i - 1];
      }
    }
    assert RealConnect(p, params, report).value[1] == SetCharset(Str("utf8mb4"));
  }

  /** The `ssl_set` call `connect()` makes when flags are set. */
  function SslStep(p: seq<Entry>, params: RealConnectParams): seq<LinkEffect> {
    if params.flags.Some? then [SslSet(SslOf(p))] else []
  }

  /**
   * The steps of `connect()` around `_realConnect`, whose outcome is given:
   * the parameters are read and stored, the resource is created, and
   * `ssl_set` is called when flags are set.
   */
  function Opened(link: Link, params: RealConnectParams, outcome: Result<seq<LinkEffect>, LinkError>)
    : (r: (Link, Result<seq<LinkEffect>, LinkError>))
    ensures r.0 == link.(hasResource := true, realParams := params)
    ensures outcome.Err? ==> r.1 == Err(outcome.error)
    ensures outcome.Ok? ==> r.1 == Ok([CreateResource] + SslStep(link.connectionParameters, params) + outcome.value)
  {
    var linked := link.(hasResource := true, realParams := params);
    match outcome
    case Ok(e) => (linked, Ok([CreateResource] + SslStep(link.connectionParameters, params) + e))
    case Err(err) => (linked, Err(err))
  }

  /** No effect of the list sets the charset. */
  predicate NoCharset(e: seq<LinkEffect>) {
    forall i :: 0 <= i < |e| ==> !e[i].SetCharset?
  }

  lemma NoCharsetConcat(a: seq<LinkEffect>, b: seq<LinkEffect>)
    requires NoCharset(a) && NoCharset(b)
    ensures NoCharset(a + b)
  {
    forall i | |a| <= i < |a + b| ensures !(a + b)[i].SetCharset? {
      assert (a + b)[i] == b[i - |a|];
    }
  }

  /** Without the charset step, connecting sets no charset. */
  lemma ConnectedNoCharset(p: seq<Entry>, params: RealConnectParams)
    ensures NoCharset([CreateResource] + SslStep(p, params) + ([NativeConnect(params)] + InitQueries(params.initStatements)))
    ensures NoCharset([NativeConnect(params)] + InitQueries(params.initStatements))
  {
    var tail := InitQueries(params.initStatements);
    assert NoCharset(tail);
    NoCharsetConcat([NativeConnect(params)], tail);
    NoCharsetConcat([CreateResource] + SslStep(p, params), [NativeConnect(params)] + tail);
  }

  /**
   * `connect()`: nothing once a resource exists; otherwise read the
   * parameters, create the resource, connect. As written, the charset is
   * never set.
   */
  function Connect(link: Link, dontVerifyKey: int, report: Report): (r: (Link, Result<seq<LinkEffect>, LinkError>))
    ensures link.hasResource ==> r == (link, Ok([]))
    ensures !link.hasResource ==> r.0.hasResource && r.0.realParams == ReadParams(link.connectionParameters, dontVerifyKey)
    ensures !link.hasResource && r.1.Ok? ==> |r.1.value| >= 2 && r.1.value[0] == CreateResource
    ensures !link.hasResource ==>
      (r.1.Err? <==> report.report != Connected || InitFails(ReadParams(link.connectionParameters, dontVerifyKey), report))
    ensures !link.hasResource && r.1.Err? ==> r.1 == RealConnectAsWritten(r.0.realParams, report)
    ensures r.1.Ok? ==> NoCharset(r.1.value)
  {
    if link.hasResource then (link, Ok([]))
    else
      var params := ReadParams(link.connectionParameters, dontVerifyKey);
      ConnectedNoCharset(link.connectionParameters, params);
      Opened(link, params, RealConnectAsWritten(params, report))
  }

  /**
   * The intended `connect()`: the same steps, with a non-empty `charset`
   * parameter applied right after connecting.
   */
  function ConnectIntended(link: Link, dontVerifyKey: int, report: Report): (r: (Link, Result<seq<LinkEffect>, LinkError>))
    ensures r.0 == Connect(link, dontVerifyKey, report).0
    ensures r.1.Err? <==> Connect(link, dontVerifyKey, report).1.Err?
    ensures r.1.Ok? && !link.hasResource ==> var charset := Coalesce(link.connectionParameters, StrKey("charset"), Null);
      Truthy(charset) <==> SetCharset(charset) in r.1.value
  {
    if link.hasResource then (link, Ok([]))
    else
      var p := link.connectionParameters;
      var params := ReadParams(p, dontVerifyKey);
      var charset := Coalesce(p, StrKey("charset"), Null);
      ConnectedNoCharset(p, params);
      var r := Opened(link, params, RealConnect(p, params, report));
      assert r.1.Ok? && Truthy(charset) ==> r.1.value[1 + |SslStep(p, params)| + 1] == SetCharset(charset);
      r
  }

  /** `reConnect()`: refuses a link without a resource, else connects again with the stored parameters. */
  function ReConnect(link: Link, report: Report): (r: Result<seq<LinkEffect>, LinkError>)
    ensures !link.hasResource ==> r == Err(NoResource(ReconnectMessage))
    ensures link.hasResource && r.Ok? ==> |r.value| > 0 && r.value[0] == NativeConnect(link.realParams)
    ensures link.hasResource ==> (r.Err? <==> report.report != Connected || InitFails(link.realParams, report))
    ensures link.hasResource && report.report == Connected && InitFails(link.realParams, report) ==>
      r.Err? && r.error.InitStatementFailed?
    ensures r.Ok? ==> NoCharset(r.value)
  {
    if !link.hasResource then Err(NoResource(ReconnectMessage))
    else
      ConnectedNoCharset(link.connectionParameters, link.realParams);
      RealConnectAsWritten(link.realParams, report)
  }

  /**
   * An init statement that throws makes `connect()` fail with its
   * `mysqli_sql_exception`, yet the link keeps its (connected) resource, so
   * a later `connect()` does nothing.
   */
  lemma InitStatementThrows(link: Link, dontVerifyKey: int, code: int, message: string)
    requires !link.hasResource
    requires Lookup(link.connectionParameters, StrKey("initStatements")) == Some(Arr([Entry(IntKey(0), Str("SET NAMES utf8mb4"))]))
    ensures var report := Report(Connected, 0, "", Some(InitFailure(0, code, message)));
      var r := Connect(link, dontVerifyKey, report);
      && r.1 == Err(InitStatementFailed(Str("SET NAMES utf8mb4"), code, message))
      && r.0.hasResource
      && Connect(r.0, dontVerifyKey, report) == (r.0, Ok([]))
  {
    var report := Report(Connected, 0, "", Some(InitFailure(0, code, message)));
    var params := ReadParams(link.connectionParameters, dontVerifyKey);
    assert params.initStatements == Arr([Entry(IntKey(0), Str("SET NAMES utf8mb4"))]);
    assert InitFails(params, report);
  }

  /**
   * Reconnecting after a connect, successful or not, reuses exactly the
   * parameters `_connect` read: its outcome is `_realConnect`'s on them.
   */
  lemma ReconnectReusesParams(link: Link, dontVerifyKey: int, first: Report, again: Report)
    requires !link.hasResource
    ensures var linked := Connect(link, dontVerifyKey, first).0;
      ReConnect(linked, again) == RealConnectAsWritten(ReadParams(link.connectionParameters, dontVerifyKey), again)
    ensures var linked := Connect(link, dontVerifyKey, first).0;
      ReConnect(linked, again).Ok? ==> ReConnect(linked, again).value[0] == NativeConnect(ReadParams(link.connectionParameters, dontVerifyKey))
  {
    var linked := Connect(link, dontVerifyKey, first).0;
    assert linked.hasResource && linked.realParams == ReadParams(link.connectionParameters, dontVerifyKey);
  }
}
