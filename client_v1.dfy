/**
 * The v1 API client: the query endpoint and the `pg_dump` endpoint derived from one URL, and
 * the extra request headers given in its `headers` query parameters.
 */
module ClientV1 {
  import opened Wrappers
  import opened UrlParams

  const SchemaAndMetadataAPIEndpoint: string := "v1/query"
  const PGDumpAPIEndpoint: string := "v1/pg_dump"

  class Client {
    var schemaAndMetadataAPIEndpoint: Url
    var pgDumpAPIEndpoint: Url
    var headers: map<string, string>

    /** `new(Client)`: every field at its zero value. */
    constructor ()
      ensures schemaAndMetadataAPIEndpoint == Url("", "", "", map[]) && pgDumpAPIEndpoint == Url("", "", "", map[])
      ensures headers == map[]
    {
      schemaAndMetadataAPIEndpoint := Url("", "", "", map[]);
      pgDumpAPIEndpoint := Url("", "", "", map[]);
      headers := map[];
    }
  }

  /** `NewClient` for the outcome of parsing its URL. A URL that did not parse gives no client
      and no error either. */
  method NewClient(parsed: Option<Url>) returns (client: Option<Client>, err: Option<string>)
    ensures err.None?
    ensures parsed.None? ==> client.None?
    ensures parsed.Some? ==> client.Some? && fresh(client.value)
    ensures parsed.Some? ==>
      var u := parsed.value;
      && client.value.headers == (if "headers" in u.query then HeadersOf(u.query["headers"]) else map[])
      && client.value.schemaAndMetadataAPIEndpoint == Endpoint(u, SchemaAndMetadataAPIEndpoint)
      && client.value.pgDumpAPIEndpoint == Endpoint(u, PGDumpAPIEndpoint)
  {
    if parsed.None? {
      return None, None;
    }
    var u := parsed.value;
    var c := new Client();
    var params := u.query;
    var headers := ParseHeaders(params);
    c.headers := headers;
    var scheme := Scheme(params);
    c.schemaAndMetadataAPIEndpoint := u;
    c.schemaAndMetadataAPIEndpoint := c.schemaAndMetadataAPIEndpoint.(scheme := scheme);
    c.schemaAndMetadataAPIEndpoint := c.schemaAndMetadataAPIEndpoint.(path := PathJoin(u.path, SchemaAndMetadataAPIEndpoint));
    c.pgDumpAPIEndpoint := u;
    c.pgDumpAPIEndpoint := c.pgDumpAPIEndpoint.(scheme := scheme);
    c.pgDumpAPIEndpoint := c.pgDumpAPIEndpoint.(path := PathJoin(u.path, PGDumpAPIEndpoint));
    return Some(c), None;
  }

  // ---------------------------------------------------------------------------------------
  // Properties

  /** Both endpoints share scheme, host and query, and differ in the joined path only. */
  lemma EndpointsDifferOnlyInPath(u: Url)
    ensures Endpoint(u, SchemaAndMetadataAPIEndpoint).(path := "") == Endpoint(u, PGDumpAPIEndpoint).(path := "")
    ensures Endpoint(u, SchemaAndMetadataAPIEndpoint).path != Endpoint(u, PGDumpAPIEndpoint).path
  {
    var q := Endpoint(u, SchemaAndMetadataAPIEndpoint).path;
    var d := Endpoint(u, PGDumpAPIEndpoint).path;
    if u.path == "" {
      assert q[3] != d[3];
    } else {
      assert q[|q| - 1] == 'y' && d[|d| - 1] == 'p';
    }
  }
}
