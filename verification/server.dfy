/** The server's entry point: the CORS middleware wrapped around every route
    and the environment lookups that configure the database connection. */
module Server {

  /** The origins the middleware echoes back. */
  const AllowedOrigins: seq<string> := ["http://localhost:5173", "http://localhost:3000"]

  const AllowOriginHeader: string := "Access-Control-Allow-Origin"
  const AllowMethodsHeader: string := "Access-Control-Allow-Methods"
  const AllowHeadersHeader: string := "Access-Control-Allow-Headers"
  const AllowCredentialsHeader: string := "Access-Control-Allow-Credentials"

  const AllowedMethods: string := "GET, POST, PUT, DELETE, OPTIONS"
  const AllowedHeaders: string := "Content-Type, Authorization"

  /** `Header.Get` / `os.Getenv`: the value, or "" when the key is absent. */
  function Lookup(m: map<string, string>, key: string): string {
    if key in m then m[key] else ""
  }

  /** What the middleware does after setting headers: answer the request
      itself with a status, or hand it to the wrapped handler (one call). */
  datatype Next = Answered(status: nat) | Forwarded

  /** `corsMiddleware`, for one request with the given headers and method:
      the response headers it sets and what happens next. */
  method CorsMiddleware(requestHeaders: map<string, string>, httpMethod: string)
    returns (headers: map<string, string>, next: Next)
    ensures AllowOriginHeader in headers <==> Lookup(requestHeaders, "Origin") in AllowedOrigins
    ensures AllowOriginHeader in headers ==> headers[AllowOriginHeader] == Lookup(requestHeaders, "Origin")
    ensures AllowMethodsHeader in headers && headers[AllowMethodsHeader] == AllowedMethods
    ensures AllowHeadersHeader in headers && headers[AllowHeadersHeader] == AllowedHeaders
    ensures AllowCredentialsHeader in headers && headers[AllowCredentialsHeader] == "true"
    ensures headers.Keys <= {AllowOriginHeader, AllowMethodsHeader, AllowHeadersHeader, AllowCredentialsHeader}
    ensures httpMethod == "OPTIONS" ==> next == Answered(204)
    ensures httpMethod != "OPTIONS" ==> next == Forwarded
  {
    var origin := Lookup(requestHeaders, "Origin");
    headers := map[];
    var i := 0;
    while i < |AllowedOrigins|
      invariant 0 <= i <= |AllowedOrigins|
      invariant headers == map[]
      invariant origin !in AllowedOrigins[..i]
    {
      if origin == AllowedOrigins[i] {
        headers := headers[AllowOriginHeader := origin];
        break;
      }
      i := i + 1;
    }
    assert AllowedOrigins[..|AllowedOrigins|] == AllowedOrigins;
    headers := headers[AllowMethodsHeader := AllowedMethods];
    headers := headers[AllowHeadersHeader := AllowedHeaders];
    headers := headers[AllowCredentialsHeader := "true"];
    if httpMethod == "OPTIONS" {
      next := Answered(204);
      return;
    }
    next := Forwarded;
  }

  /** `getEnv`: the variable's value when it is set and non-empty, otherwise
      the default. A variable set to "" counts as unset. */
  function GetEnv(env: map<string, string>, key: string, default: string): (r: string)
    ensures key in env && env[key] != "" ==> r == env[key]
    ensures (key !in env || env[key] == "") ==> r == default
  {
    var value := Lookup(env, key);
    if value != "" then value else default
  }

  /** The lookup never yields "" unless the default is "". */
  lemma GetEnvNonEmpty(env: map<string, string>, key: string, default: string)
    requires default != ""
    ensures GetEnv(env, key, default) != ""
    ensures GetEnv(env, key, default) == default || (key in env && GetEnv(env, key, default) == env[key])
  {
  }

  /** The connection string for the given settings. */
  function FormatConnString(host: string, port: string, user: string, password: string, dbname: string): string {
    "host=" + host + " port=" + port + " user=" + user + " password=" + password
    + " dbname=" + dbname + " sslmode=disable"
  }

  /** The database connection string, each setting read from the environment
      with its default. */
  function ConnString(env: map<string, string>): string {
    FormatConnString(
      GetEnv(env, "DB_HOST", "localhost"),
      GetEnv(env, "DB_PORT", "5432"),
      GetEnv(env, "DB_USER", "postgres"),
      GetEnv(env, "DB_PASSWORD", "postgres"),
      GetEnv(env, "DB_NAME", "fullstack_db"))
  }

  /** With no variables set (or all set to ""), the defaults are used; a
      non-empty `DB_HOST` replaces the host and nothing else. */
  lemma ConnStringDefaults(env: map<string, string>, host: string)
    requires forall k | k in env :: env[k] == ""
    ensures ConnString(env) == FormatConnString("localhost", "5432", "postgres", "postgres", "fullstack_db")
    ensures host != "" ==>
              ConnString(env["DB_HOST" := host]) == FormatConnString(host, "5432", "postgres", "postgres", "fullstack_db")
  {
  }
}
