/**
 * Request payloads for the source-aware endpoints (`v2/query` and `v1/metadata`):
 * each builder returns the JSON object the driver sends.
 */
module QueryUtils {
  import opened JsonValue

  const Postgres: string := "postgres"
  const MySQL: string := "mysql"

  const V2QueryEndpoint: string := "v2/query"
  const V1MetadataEndpoint: string := "v1/metadata"

  /** `GetV2Query`: `type`, `source` and `args`; the source key is kept even when empty. */
  function GetV2Query(queryType: string, args: map<string, Json>, source: string): (r: map<string, Json>)
    ensures r.Keys == {"type", "source", "args"}
    ensures r["type"] == JStr(queryType) && r["source"] == JStr(source) && r["args"] == JObj(args)
  {
    map["type" := JStr(queryType), "source" := JStr(source), "args" := JObj(args)]
  }

  /** Action-name prefix for a database driver: `pg_` for the empty driver and for postgres, `mysq_` otherwise. */
  function TypePrefix(dbDriver: string): (p: string)
    ensures p == "pg_" <==> dbDriver == "" || dbDriver == Postgres
    ensures p == "pg_" || p == "mysq_"
  {
    if dbDriver != "" && dbDriver != Postgres then "mysq_" else "pg_"
  }

  /** `GetV1MetadataQueryNoPrefix`: the type passes through; `source` only when non-empty. */
  function GetV1MetadataQueryNoPrefix(queryType: string, args: map<string, Json>, source: string): (r: map<string, Json>)
    ensures source == "" ==> r.Keys == {"type", "args"}
    ensures source != "" ==> r.Keys == {"type", "source", "args"} && r["source"] == JStr(source)
    ensures r["type"] == JStr(queryType) && r["args"] == JObj(args)
  {
    if source == "" then map["type" := JStr(queryType), "args" := JObj(args)]
    else map["type" := JStr(queryType), "source" := JStr(source), "args" := JObj(args)]
  }

  /** `GetV1MetadataQueryWithPrefix`: as the no-prefix builder, with the driver prefix before the type. */
  function GetV1MetadataQueryWithPrefix(queryType: string, args: map<string, Json>, dbDriver: string, source: string): (r: map<string, Json>)
    ensures source == "" ==> r.Keys == {"type", "args"}
    ensures source != "" ==> r.Keys == {"type", "source", "args"} && r["source"] == JStr(source)
    ensures r["args"] == JObj(args)
    ensures r["type"].JStr? && |r["type"].s| > |queryType|
  {
    var requestType := TypePrefix(dbDriver) + queryType;
    if source == "" then map["type" := JStr(requestType), "args" := JObj(args)]
    else map["type" := JStr(requestType), "source" := JStr(source), "args" := JObj(args)]
  }

  /** The prefixed builder is the plain builder applied to the prefixed action name. */
  lemma WithPrefixIsNoPrefixOfPrefixedType(queryType: string, args: map<string, Json>, dbDriver: string, source: string)
    ensures GetV1MetadataQueryWithPrefix(queryType, args, dbDriver, source)
         == GetV1MetadataQueryNoPrefix(TypePrefix(dbDriver) + queryType, args, source)
  {
  }

  /** The request type ends with the action name and starts with the driver's prefix. */
  lemma PrefixedTypeShape(queryType: string, args: map<string, Json>, dbDriver: string, source: string)
    ensures var t := GetV1MetadataQueryWithPrefix(queryType, args, dbDriver, source)["type"].s;
      t[|t| - |queryType|..] == queryType &&
      (if dbDriver == "" || dbDriver == Postgres then t[..3] == "pg_" else t[..5] == "mysq_")
  {
    var t := TypePrefix(dbDriver) + queryType;
    assert t[|t| - |queryType|..] == queryType;
    if dbDriver == "" || dbDriver == Postgres { assert t[..3] == "pg_"; } else { assert t[..5] == "mysq_"; }
  }

  /** The v2 payload and the source-present metadata payload differ only in the type they carry. */
  lemma V2AndMetadataAgreeWithSource(queryType: string, args: map<string, Json>, source: string)
    requires source != ""
    ensures GetV2Query(queryType, args, source) == GetV1MetadataQueryNoPrefix(queryType, args, source)
  {
  }
}
