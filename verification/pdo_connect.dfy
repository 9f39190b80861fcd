/**
 * `connect()` of the worker-backed PDO connection: normalising the
 * connection parameters, building the DSN, and sending the `connect` task.
 */
module PdoConnect {
  import opened Wrappers
  import opened Php

  /** The locals `connect()` fills while it walks the parameters. */
  datatype Scan = Scan(
    dsn: Value,                  // starts as null
    pdoDriver: Option<string>,   // unset until a driver is named
    username: Option<string>,
    password: Option<string>,
    hostname: Option<string>,
    port: Option<int>,
    database: Option<string>,
    charset: Option<string>,
    unixSocket: Option<string>,
    version: Option<string>,
    options: seq<Entry>)

  const Start := Scan(Null, None, None, None, None, None, None, None, None, None, [])

  /** The separators a `pdo...` driver name drops. */
  const Separators: set<char> := {'-', '_', ' '}

  /** The name `connect()` switches on: the key lower-cased (an int key as its decimal text). */
  function KeyName(k: Key): string {
    match k
    case IntKey(i) => IntToString(i)
    case StrKey(s) => ToLower(s)
  }

  /**
   * A `driver` value naming a PDO driver (`pdo_mysql`, `PDO-pgsql`, `pdo sqlite`):
   * lower-cased, with `-`, `_` and spaces dropped and the `pdo` prefix cut off.
   * A remainder PHP finds falsy (empty, or `"0"`) becomes the empty name. Any
   * other driver name leaves the PDO driver as it was.
   */
  function PdoDriverOf(value: Value): (r: Option<string>)
    ensures r.Some? <==> StartsWith(ToLower(StrVal(value)), "pdo")
    ensures r.Some? ==> forall i :: 0 <= i < |r.value| ==> r.value[i] !in Separators
    ensures r.Some? ==> Truthy(Str(r.value)) || r.value == ""
  {
    var lower := ToLower(StrVal(value));
    if StartsWith(lower, "pdo") then
      var squeezed := RemoveChars(lower, Separators);
      var rest := if |squeezed| > 3 then squeezed[3..] else "";
      Some(if Truthy(Str(rest)) then rest else "")
    else None
  }

  /** `pdo0` (or `pdo_0`) names the empty driver: `substr()` gives `"0"`, which `?:` replaces. */
  lemma PdoZeroDriver()
    ensures PdoDriverOf(Str("pdo0")) == Some("")
    ensures PdoDriverOf(Str("pdo_0")) == Some("")
  {
    SqueezePdo(Separators);
    assert !Truthy(Str("0"));
    PrefixedName("pdo", "0");
    PrefixedName("pdo_", "0");
    assert "pdo0" == "pdo" + "0";
    assert "pdo_0" == "pdo_" + "0";
  }

  /** One parameter of the `foreach` in `connect()`. */
  function ScanParam(sc: Scan, e: Entry): (r: Scan)
    ensures r.hostname == (if NamesHost(e) then Some(StrVal(e.value)) else sc.hostname)
    ensures KeyName(e.key) == "port" ==> r == sc.(port := Some(IntVal(e.value)))
    ensures KeyName(e.key) == "driver" ==> r == (if PdoDriverOf(e.value).Some? then sc.(pdoDriver := PdoDriverOf(e.value)) else sc)
  {
    var v := e.value;
    match KeyName(e.key)
    case "dsn" => sc.(dsn := v)
    case "driver" => (var d := PdoDriverOf(v); if d.Some? then sc.(pdoDriver := d) else sc)
    case "pdodriver" => sc.(pdoDriver := Some(StrVal(v)))
    case "user" => sc.(username := Some(StrVal(v)))
    case "username" => sc.(username := Some(StrVal(v)))
    case "pass" => sc.(password := Some(StrVal(v)))
    case "password" => sc.(password := Some(StrVal(v)))
    case "host" => sc.(hostname := Some(StrVal(v)))
    case "hostname" => sc.(hostname := Some(StrVal(v)))
    case "port" => sc.(port := Some(IntVal(v)))
    case "database" => sc.(database := Some(StrVal(v)))
    case "dbname" => sc.(database := Some(StrVal(v)))
    case "charset" => sc.(charset := Some(StrVal(v)))
    case "unix_socket" => sc.(unixSocket := Some(StrVal(v)))
    case "version" => sc.(version := Some(StrVal(v)))
    case "driver_options" => sc.(options := MergeOptions(sc.options, ToArray(v)))
    case "options" => sc.(options := MergeOptions(sc.options, ToArray(v)))
    case _ => sc.(options := Assign(sc.options, e.key, v))
  }

  /** `array_diff_key($options, $value) + $value`: later options win, key by key. */
  function MergeOptions(options: seq<Entry>, value: seq<Entry>): (r: seq<Entry>)
    ensures forall k :: Lookup(r, k) == (if HasKey(value, k) then Lookup(value, k) else Lookup(options, k))
  {
    Plus(DiffKeys(options, value), value)
  }

  function ScanAll(sc: Scan, params: seq<Entry>): Scan
    decreases |params|
  {
    if |params| == 0 then sc else ScanAll(ScanParam(sc, params[0]), params[1..])
  }

  predicate NamesHost(e: Entry) {
    KeyName(e.key) == "host" || KeyName(e.key) == "hostname"
  }

  /** The host is set after the walk exactly when it was set before or some parameter names it. */
  lemma {:induction false} ScanAllHost(sc: Scan, params: seq<Entry>)
    ensures ScanAll(sc, params).hostname.Some? <==>
      sc.hostname.Some? || exists i :: 0 <= i < |params| && NamesHost(params[i])
    decreases |params|
  {
    if |params| > 0 {
      ScanParamHost(sc, params[0]);
      ScanAllHost(ScanParam(sc, params[0]), params[1..]);
      assert forall i :: 1 <= i < |params| ==> params[i] == params[1..][i - 1];
      if exists i :: 0 <= i < |params[1..]| && NamesHost(params[1..][i]) {
        var j :| 0 <= j < |params[1..]| && NamesHost(params[1..][j]);
        assert NamesHost(params[j + 1]);
      }
    }
  }

  lemma ScanParamHost(sc: Scan, e: Entry)
    ensures ScanParam(sc, e).hostname.Some? <==> sc.hostname.Some? || NamesHost(e)
  {
  }

  /** The `key=value` fields of a DSN, in order. */
  datatype Field = Field(key: string, value: string)

  /**
   * The fields the default DSN is built from, for every driver but sqlite:
   * sqlsrv uses `database`/`server`; the others `dbname`, `host`, `port`,
   * `charset` (not for pgsql), `unix_socket` and `version`, each only when set.
   */
  function DsnFields(driver: string, sc: Scan): (fs: seq<Field>)
    requires driver != "sqlite"
  {
    Present(Candidates(driver, sc))
  }

  /** Every field the driver's DSN may hold, with its value when set. */
  function Candidates(driver: string, sc: Scan): seq<(string, Option<string>)> {
    var port := if sc.port.Some? then Some(IntToString(sc.port.value)) else None;
    if driver == "sqlsrv" then
      [("database", sc.database), ("server", sc.hostname)]
    else if driver == "pgsql" then
      [("dbname", sc.database), ("host", sc.hostname), ("port", port),
       ("unix_socket", sc.unixSocket), ("version", sc.version)]
    else
      [("dbname", sc.database), ("host", sc.hostname), ("port", port),
       ("charset", sc.charset), ("unix_socket", sc.unixSocket), ("version", sc.version)]
  }

  /** The candidates that are set, in order, as fields. */
  function Present(cands: seq<(string, Option<string>)>): (fs: seq<Field>)
    ensures |fs| <= |cands|
    ensures forall k, v :: Field(k, v) in fs <==> (k, Some(v)) in cands
  {
    if |cands| == 0 then []
    else
      var rest := Present(cands[1..]);
      assert forall c :: c in cands <==> c == cands[0] || c in cands[1..];
      if cands[0].1.Some? then [Field(cands[0].0, cands[0].1.value)] + rest else rest
  }

  function Pieces(fs: seq<Field>): (ps: seq<string>)
    ensures |ps| == |fs|
    ensures forall i :: 0 <= i < |fs| ==> ps[i] == fs[i].key + "=" + fs[i].value
  {
    if |fs| == 0 then [] else [fs[0].key + "=" + fs[0].value] + Pieces(fs[1..])
  }

  /** `$driver . ':' . implode(';', $parts)`. */
  function Render(driver: string, fs: seq<Field>): string {
    driver + ":" + Join(Pieces(fs), ";")
  }

  /** The DSN built when none was given but a PDO driver was. */
  function DefaultDsn(driver: string, sc: Scan): string {
    if driver == "sqlite" then driver + ":" + sc.database.GetOr("")
    else Render(driver, DsnFields(driver, sc))
  }

  // ---------------------------------------------------------------------------
  // Reading a DSN back
  // ---------------------------------------------------------------------------

  function ParseField(piece: string): Field {
    var kv := SplitN(piece, '=', 2);
    if |kv| == 2 then Field(kv[0], kv[1]) else Field(kv[0], "")
  }

  function ParseFields(pieces: seq<string>): (fs: seq<Field>)
    ensures |fs| == |pieces|
  {
    if |pieces| == 0 then [] else [ParseField(pieces[0])] + ParseFields(pieces[1..])
  }

  /** Splits a DSN into its driver prefix and its `;`-separated `key=value` fields. */
  function ParseDsn(dsn: string): Option<(string, seq<Field>)> {
    var top := SplitN(dsn, ':', 2);
    if |top| < 2 then None
    else if top[1] == "" then Some((top[0], []))
    else Some((top[0], ParseFields(Split(top[1], ';'))))
  }

  /** Fields whose keys and values cannot be confused with the separators. */
  predicate PlainField(f: Field) {
    '=' !in f.key && ';' !in f.key && ';' !in f.value
  }

  predicate PlainFields(fs: seq<Field>) {
    forall f :: f in fs ==> PlainField(f)
  }

  lemma {:induction false} ParsePieces(fs: seq<Field>)
    requires PlainFields(fs)
    ensures ParseFields(Pieces(fs)) == fs
    decreases |fs|
  {
    if |fs| > 0 {
      var f := fs[0];
      assert PlainField(f);
      assert ParseField(Pieces(fs)[0]) == f by {
        CutAtFirst(f.key, f.value, '=');
        assert f.key + "=" + f.value == f.key + ['='] + f.value;
      }
      assert PlainFields(fs[1..]) by {
        forall g | g in fs[1..] ensures PlainField(g) { assert g in fs; }
      }
      assert Pieces(fs)[1..] == Pieces(fs[1..]);
      ParsePieces(fs[1..]);
      assert fs == [f] + fs[1..];
    }
  }

  /** A rendered DSN reads back as the same driver and fields. */
  lemma RenderRoundTrip(driver: string, fs: seq<Field>)
    requires ':' !in driver
    requires PlainFields(fs)
    ensures ParseDsn(Render(driver, fs)) == Some((driver, fs))
  {
    var ps := Pieces(fs);
    CutAtFirst(driver, Join(ps, ";"), ':');
    assert Render(driver, fs) == driver + [':'] + Join(ps, ";");
    if |fs| > 0 {
      forall i | 0 <= i < |ps|
        ensures ';' !in ps[i]
      {
        assert PlainField(fs[i]);
        assert ps[i] == fs[i].key + "=" + fs[i].value;
      }
      SplitJoin(ps, ';');
      assert Join(ps, [';']) == Join(ps, ";");
      ParsePieces(fs);
      JoinNotEmpty(ps, ";");
    }
  }

  /** The values of a scan that may end up inside a default DSN contain no `;`. */
  predicate PlainScan(sc: Scan) {
    && (sc.database.Some? ==> ';' !in sc.database.value)
    && (sc.hostname.Some? ==> ';' !in sc.hostname.value)
    && (sc.charset.Some? ==> ';' !in sc.charset.value)
    && (sc.unixSocket.Some? ==> ';' !in sc.unixSocket.value)
    && (sc.version.Some? ==> ';' !in sc.version.value)
  }

  lemma DsnFieldsPlain(driver: string, sc: Scan)
    requires driver != "sqlite"
    requires PlainScan(sc)
    ensures PlainFields(DsnFields(driver, sc))
  {
    CandidatesPlain(driver, sc);
    PresentPlain(Candidates(driver, sc));
  }

  /** Candidates whose keys and set values are free of the separators. */
  predicate PlainCandidates(cands: seq<(string, Option<string>)>) {
    && (forall i :: 0 <= i < |cands| ==> '=' !in cands[i].0 && ';' !in cands[i].0)
    && (forall i :: 0 <= i < |cands| ==> cands[i].1.Some? ==> ';' !in cands[i].1.value)
  }

  lemma CandidatesPlain(driver: string, sc: Scan)
    requires PlainScan(sc)
    ensures PlainCandidates(Candidates(driver, sc))
  {
    if sc.port.Some? { IntToStringHasNo(sc.port.value, ';'); }
  }

  lemma PresentPlain(cands: seq<(string, Option<string>)>)
    requires PlainCandidates(cands)
    ensures PlainFields(Present(cands))
  {
    forall f | f in Present(cands) ensures PlainField(f) {
      var i :| 0 <= i < |cands| && cands[i] == (f.key, Some(f.value));
    }
  }

  /**
   * The default DSN of a non-sqlite driver reads back as that driver and
   * exactly the fields `DsnFields` lists, in that order.
   */
  lemma DefaultDsnRoundTrip(driver: string, sc: Scan)
    requires driver != "sqlite" && ':' !in driver
    requires PlainScan(sc)
    ensures ParseDsn(DefaultDsn(driver, sc)) == Some((driver, DsnFields(driver, sc)))
  {
    var fs := DsnFields(driver, sc);
    DsnFieldsPlain(driver, sc);
    RenderRoundTrip(driver, fs);
  }

  // ---------------------------------------------------------------------------
  // connect()
  // ---------------------------------------------------------------------------

  datatype ConnectError =
    | NoWorkerPool          // 'Worker pool is not specified'
    | AmbiguousParameters   // both hostname and unix_socket were set
    | NoDsn                 // 'A dsn was not provided or could not be constructed from your parameters'
    | ReadFailed            // 'Reading from the worker failed'
    | SendFailed            // 'Sending the task to the worker failed'
    | TaskThrew             // the task's `\Error`, which no `catch` clause of `connect()` names

  /** The arguments of the `connect` task: `[$dsn, $username, $password, $options]`. */
  datatype ConnectArgs = ConnectArgs(dsn: Value, username: Option<string>, password: Option<string>, options: seq<Entry>)

  /** Everything `connect()` decides before it talks to a worker. */
  function Prepare(params: seq<Entry>): (r: Result<ConnectArgs, ConnectError>)
    ensures var sc := ScanAll(Start, params);
      && (sc.hostname.Some? && sc.unixSocket.Some? ==> r == Err(AmbiguousParameters))
      && (!(sc.hostname.Some? && sc.unixSocket.Some?) && sc.dsn.Null? && sc.pdoDriver.None? ==> r == Err(NoDsn))
      && (r.Ok? && !sc.dsn.Null? ==> r.value.dsn == sc.dsn)
      && (r.Ok? && sc.dsn.Null? ==> r.value.dsn == Str(DefaultDsn(sc.pdoDriver.value, sc)))
      && (!(sc.hostname.Some? && sc.unixSocket.Some?) && (!sc.dsn.Null? || sc.pdoDriver.Some?) ==> r.Ok?)
      && (r.Ok? ==> r.value.options == sc.options && r.value.username == sc.username && r.value.password == sc.password)
  {
    var sc := ScanAll(Start, params);
    if sc.hostname.Some? && sc.unixSocket.Some? then Err(AmbiguousParameters)
    else if sc.dsn.Null? && sc.pdoDriver.Some? then
      Ok(ConnectArgs(Str(DefaultDsn(sc.pdoDriver.value, sc)), sc.username, sc.password, sc.options))
    else if sc.dsn.Null? then Err(NoDsn)
    else Ok(ConnectArgs(sc.dsn, sc.username, sc.password, sc.options))
  }

  /**
   * Without a DSN, the DSN `connect()` sends to the worker reads back as the
   * PDO driver named and exactly the fields the walk collected.
   */
  lemma PrepareDsnRoundTrip(params: seq<Entry>)
    requires var sc := ScanAll(Start, params);
      && !(sc.hostname.Some? && sc.unixSocket.Some?) && sc.dsn.Null? && sc.pdoDriver.Some?
      && sc.pdoDriver.value != "sqlite" && ':' !in sc.pdoDriver.value && PlainScan(sc)
    ensures var sc := ScanAll(Start, params);
      && Prepare(params).Ok? && Prepare(params).value.dsn.Str?
      && ParseDsn(Prepare(params).value.dsn.s) == Some((sc.pdoDriver.value, DsnFields(sc.pdoDriver.value, sc)))
  {
    var sc := ScanAll(Start, params);
    DefaultDsnRoundTrip(sc.pdoDriver.value, sc);
  }

  lemma ScanParamPort(sc: Scan, v: Value)
    ensures ScanParam(sc, Entry(StrKey("port"), v)) == sc.(port := Some(IntVal(v)))
  {
    ToLowerOfLower("port");
  }

  lemma ScanParamDriver(sc: Scan, v: Value)
    ensures ScanParam(sc, Entry(StrKey("driver"), v)) ==
      (if PdoDriverOf(v).Some? then sc.(pdoDriver := PdoDriverOf(v)) else sc)
  {
    ToLowerOfLower("driver");
  }

  /** `port => "1e3"` is read with the `(int)` cast: port 1000. */
  lemma ScanPortCast(sc: Scan)
    ensures ScanParam(sc, Entry(StrKey("port"), Str("1e3"))) == sc.(port := Some(1000))
  {
    ScanParamPort(sc, Str("1e3"));
    IntValOfExponent();
  }

  /** `driver => "pdo0"` names the empty driver. */
  lemma ScanDriverZero(sc: Scan)
    ensures ScanParam(sc, Entry(StrKey("driver"), Str("pdo0"))) == sc.(pdoDriver := Some(""))
  {
    ScanParamDriver(sc, Str("pdo0"));
    PdoZeroDriver();
  }

  /**
   * The walk applies PHP's casts: `port => "1e3"` is port 1000, and
   * `driver => "pdo0"` names the empty driver, whose default DSN is built.
   */
  lemma PrepareCasts()
    ensures var params := [Entry(StrKey("driver"), Str("pdo0")), Entry(StrKey("port"), Str("1e3"))];
      && ScanAll(Start, params).port == Some(1000)
      && ScanAll(Start, params).pdoDriver == Some("")
      && Prepare(params).Ok?
      && Prepare(params).value.dsn == Str(DefaultDsn("", ScanAll(Start, params)))
  {
    ScanCastParams();
  }

  lemma ScanCastParams()
    ensures ScanAll(Start, [Entry(StrKey("driver"), Str("pdo0")), Entry(StrKey("port"), Str("1e3"))])
      == Start.(pdoDriver := Some(""), port := Some(1000))
  {
    var params := [Entry(StrKey("driver"), Str("pdo0")), Entry(StrKey("port"), Str("1e3"))];
    var sc1 := Start.(pdoDriver := Some(""));
    var sc2 := sc1.(port := Some(1000));
    ScanDriverZero(Start);
    ScanPortCast(sc1);
    assert params[1..] == [params[1]] && params[1..][1..] == [];
    assert ScanAll(sc1, params[1..]) == ScanAll(sc2, []);
  }

  /** What the worker answers to the `connect` task; a task failure keeps the class of what the task threw. */
  datatype Reply = Returned(pdoId: string, driverName: string) | TaskFailure(thrown: ThrowableClass) | WorkerFailure

  /** The per-flow result of a successful connect: the proxy's remote id and the driver name. */
  datatype Bound = Bound(pdoId: string, driverName: string)

  /**
   * `connect()`: a no-op when the flow is already bound; otherwise the
   * parameters are checked and turned into a `connect` task for a worker.
   */
  function Connect(bound: Option<Bound>, hasPool: bool, params: seq<Entry>, reply: Reply)
    : (r: Result<Bound, ConnectError>)
    ensures bound.Some? ==> r == Ok(bound.value)
    ensures bound.None? && !hasPool ==> r == Err(NoWorkerPool)
    ensures bound.None? && hasPool && Prepare(params).Err? ==> r == Err(Prepare(params).error)
    ensures bound.None? && hasPool && Prepare(params).Ok? ==>
      r == (match reply
            case Returned(id, name) => Ok(Bound(id, name))
            case TaskFailure(ExceptionClass) => Err(ReadFailed)
            case TaskFailure(ErrorClass) => Err(TaskThrew)
            case WorkerFailure => Err(SendFailed))
  {
    if bound.Some? then Ok(bound.value)
    else if !hasPool then Err(NoWorkerPool)
    else
      var _ :- Prepare(params);
      match reply
      case Returned(id, name) => Ok(Bound(id, name))
      case TaskFailure(thrown) => if thrown == ExceptionClass then Err(ReadFailed) else Err(TaskThrew)
      case WorkerFailure => Err(SendFailed)
  }

  /**
   * A driver written `pdo_<name>` or `pdo<name>` names the PDO driver `<name>`
   * (so `pdo_mysql` gives `mysql`), unless `<name>` is `0`.
   */
  lemma PdoPrefixAlias(name: string)
    requires name != "0"
    requires forall i :: 0 <= i < |name| ==> !('A' <= name[i] <= 'Z') && name[i] !in Separators
    ensures PdoDriverOf(Str("pdo_" + name)) == Some(name)
    ensures PdoDriverOf(Str("pdo" + name)) == Some(name)
  {
    SqueezePdo(Separators);
    PrefixedDriver("pdo_", name);
    PrefixedDriver("pdo", name);
  }

  lemma SqueezePdo(cs: set<char>)
    requires 'p' !in cs && 'd' !in cs && 'o' !in cs && '_' in cs
    ensures RemoveChars("pdo", cs) == "pdo"
    ensures RemoveChars("pdo_", cs) == "pdo"
  {
    RemoveCharsNone("pdo", cs);
    assert RemoveChars("_", cs) == "" by {
      assert "_"[1..] == "";
    }
    assert "pdo_" == "pdo" + "_";
    RemoveCharsConcat("pdo", "_", cs);
  }

  /** `prefix + name` names `name` when `prefix` is lower-case and squeezes to `pdo`. */
  lemma PrefixedDriver(prefix: string, name: string)
    requires StartsWith(prefix, "pdo") && RemoveChars(prefix, Separators) == "pdo"
    requires name != "0"
    requires forall i :: 0 <= i < |prefix| ==> !('A' <= prefix[i] <= 'Z')
    requires forall i :: 0 <= i < |name| ==> !('A' <= name[i] <= 'Z') && name[i] !in Separators
    ensures PdoDriverOf(Str(prefix + name)) == Some(name)
  {
    PrefixedName(prefix, name);
  }

  /** The same for any name, where a falsy name gives the empty driver. */
  lemma PrefixedName(prefix: string, name: string)
    requires StartsWith(prefix, "pdo") && RemoveChars(prefix, Separators) == "pdo"
    requires forall i :: 0 <= i < |prefix| ==> !('A' <= prefix[i] <= 'Z')
    requires forall i :: 0 <= i < |name| ==> !('A' <= name[i] <= 'Z') && name[i] !in Separators
    ensures PdoDriverOf(Str(prefix + name)) == Some(if Truthy(Str(name)) then name else "")
  {
    LowerConcat(prefix, name);
    SqueezeSuffix(prefix, name, Separators);
    PrefixKept(prefix, name);
    DriverOfSqueezed(prefix + name, name);
  }

  lemma PrefixKept(prefix: string, name: string)
    requires StartsWith(prefix, "pdo")
    ensures StartsWith(prefix + name, "pdo")
  {
    assert (prefix + name)[..3] == prefix[..3];
  }

  lemma LowerConcat(prefix: string, name: string)
    requires forall i :: 0 <= i < |prefix| ==> !('A' <= prefix[i] <= 'Z')
    requires forall i :: 0 <= i < |name| ==> !('A' <= name[i] <= 'Z')
    ensures ToLower(prefix + name) == prefix + name
  {
    var s := prefix + name;
    forall i | 0 <= i < |s|
      ensures !('A' <= s[i] <= 'Z')
    {
      if i < |prefix| { assert s[i] == prefix[i]; } else { assert s[i] == name[i - |prefix|]; }
    }
    ToLowerOfLower(s);
  }

  /** A lower-case `pdo...` value that squeezes to `pdo` + `name` names `name`, or the empty driver when `name` is falsy. */
  lemma DriverOfSqueezed(s: string, name: string)
    requires ToLower(s) == s && StartsWith(s, "pdo") && RemoveChars(s, Separators) == "pdo" + name
    ensures PdoDriverOf(Str(s)) == Some(if Truthy(Str(name)) then name else "")
  {
    assert ("pdo" + name)[3..] == name;
  }

  lemma SqueezeSuffix(prefix: string, name: string, cs: set<char>)
    requires RemoveChars(prefix, cs) == "pdo"
    requires forall i :: 0 <= i < |name| ==> name[i] !in cs
    ensures RemoveChars(prefix + name, cs) == "pdo" + name
  {
    RemoveCharsNone(name, cs);
    RemoveCharsConcat(prefix, name, cs);
  }
}
