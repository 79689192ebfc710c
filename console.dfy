/** The decisions of the developer command line
    (src/matrixrmapi/console.py): the log level that `-l` and `-v` select,
    and the healthcheck command's URL and exit code. The HTTP request is a
    parameter: its status and its parsed body are the inputs here. */
module Console {
  import opened Common
  import opened PyStr

  const DefaultLogLevel: int := 30
  const DefaultHost: string := "localhost"
  const DefaultPort: int := 8012
  const HealthcheckPath: string := "/api/v1/healthcheck"

  /** cli_group: one `-v` means INFO (20), two or more DEBUG (10); without
      `-v` the `--loglevel` value is kept. */
  function CliLogLevel(loglevel: int, verbose: nat): (level: int)
    ensures verbose == 0 ==> level == loglevel
    ensures verbose == 1 ==> level == 20
    ensures verbose >= 2 ==> level == 10
  {
    var level := if verbose == 1 then 20 else loglevel;
    if verbose >= 2 then 10 else level
  }

  /** Each extra `-v` makes the output at least as verbose, whatever the
      `--loglevel` was. */
  lemma MoreVerboseNeverQuieter(loglevel: int, v1: nat, v2: nat)
    requires 1 <= v1 <= v2
    ensures CliLogLevel(loglevel, v2) <= CliLogLevel(loglevel, v1)
    ensures CliLogLevel(loglevel, v2) in {10, 20}
  {
  }

  /** A host given without a scheme is taken to be plain http. */
  function NormaliseHost(host: string): (url: string)
    ensures IsSubstring("://", host) ==> url == host
    ensures !IsSubstring("://", host) ==> url == "http://" + host
  {
    if IsSubstring("://", host) then host else "http://" + host
  }

  /** A normalised host always names a scheme, so normalising twice is
      normalising once. */
  lemma NormaliseHostIdempotent(host: string)
    ensures IsSubstring("://", NormaliseHost(host))
    ensures NormaliseHost(NormaliseHost(host)) == NormaliseHost(host)
  {
    var url := "http://" + host;
    if !IsSubstring("://", host) {
      assert OccursAt("://", url, 4) by {
        assert url[4..7] == "://";
      }
      IsSubstringIffOccurs("://", url);
    }
  }

  /** The healthcheck URL: the normalised host, a colon, the port in
      decimal and the healthcheck path. The URL can be taken apart again,
      and the text between the colon and the path is the port as Python
      writes it. */
  function HealthcheckUrl(host: string, port: int): (url: string)
    ensures var h := NormaliseHost(host);
            |url| > |h| + 1 + |HealthcheckPath|
            && url[..|h|] == h && url[|h|] == ':'
            && url[|url| - |HealthcheckPath|..] == HealthcheckPath
            && IsDecimalText(url[|h| + 1..|url| - |HealthcheckPath|], port)
  {
    var h, d := NormaliseHost(host), IntToDecimal(port);
    UrlParts(h, d, HealthcheckPath);
    h + ":" + d + HealthcheckPath
  }

  /** The three parts of a URL joined by a colon after the first. */
  lemma UrlParts(h: string, d: string, p: string)
    ensures var url := h + ":" + d + p;
            url[..|h|] == h && url[|h|] == ':'
            && url[|h| + 1..|url| - |p|] == d && url[|url| - |p|..] == p
  {
    var url := h + ":" + d + p;
    assert url[..|h|] == h;
    assert url[|h| + 1..|url| - |p|] == d;
    assert url[|url| - |p|..] == p;
  }

  /** With the option defaults the command asks the local service. */
  lemma DefaultHealthcheckUrl(host: string, port: int)
    requires host == DefaultHost && port == DefaultPort
    ensures HealthcheckUrl(host, port) == "http://" + "localhost" + ":" + "8012" + "/api/v1/healthcheck"
  {
    DefaultPortText();
    NotSubstringWithoutChar("://", host, ':');
  }

  lemma DefaultPortText()
    ensures IntToDecimal(8012) == "8012"
  {
    DivModRadix(8012, 10);
    DivModRadix(801, 10);
    DivModRadix(80, 10);
    assert NatToString(8, 10) == "8";
    assert NatToString(80, 10) == "80";
    assert NatToString(801, 10) == "801";
  }

  /** Python truthiness of a JSON value, as `not payload["healthy"]` reads it. */
  predicate Truthy(v: Json)
  {
    match v
    case JNull => false
    case JBool(b) => b
    case JNumber(n) => n != 0
    case JString(s) => s != ""
    case JArray(items) => items != []
    case JObject(fields) => fields != map[]
  }

  /** doit: a non-200 status is the exit code itself; otherwise the body
      must be JSON and have a "healthy" entry (else the command raises),
      and the code is 1 for a falsy entry, 0 for a truthy one. */
  function HealthcheckExit(status: int, payload: Result<Json>): (r: Result<int>)
    ensures status != 200 ==> r == Ok(status)
    ensures status == 200 && payload.Err? ==> r == Err(payload.error)
    ensures status == 200 && payload.Ok? ==>
              match Subscript(payload.value, "healthy")
              case Err(e) => r == Err(e)
              case Ok(v) => r == Ok(if Truthy(v) then 0 else 1)
  {
    if status != 200 then Ok(status)
    else
      match payload
      case Err(e) => Err(e)
      case Ok(doc) =>
        match Subscript(doc, "healthy")
        case Err(e) => Err(e)
        case Ok(v) => if !Truthy(v) then Ok(1) else Ok(0)
  }

  /** For any real HTTP status the command exits 0 exactly when the service
      answered 200 with a truthy "healthy" entry. */
  lemma ExitZeroIffHealthy(status: int, payload: Result<Json>)
    requires 100 <= status <= 599
    ensures HealthcheckExit(status, payload) == Ok(0) <==>
              status == 200 && payload.Ok? && payload.value.JObject?
              && "healthy" in payload.value.fields && Truthy(payload.value.fields["healthy"])
  {
  }

  /** Exit code 1 means an unhealthy answer, unless the service itself
      answered with status 1, which HTTP does not allow. */
  lemma ExitOneIffUnhealthy(status: int, payload: Result<Json>)
    requires 100 <= status <= 599
    ensures HealthcheckExit(status, payload) == Ok(1) <==>
              status == 200 && payload.Ok? && payload.value.JObject?
              && "healthy" in payload.value.fields && !Truthy(payload.value.fields["healthy"])
  {
  }
}
