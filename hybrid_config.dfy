/** The configuration records of the hybrid searcher and their defaulting rules (config.go). */
module HybridConfig {

  datatype SearchConfig = SearchConfig(
    EmbeddingWeight: real,
    BM42Weight: real,
    MaxResults: int,
    MinScore: real,
    OverlapBonus: real,
    OverlapPriority: bool)

  datatype DatabaseConfig = DatabaseConfig(
    QdrantHost: string,
    QdrantPort: int,
    CollectionName: string,
    TitleCollection: string,
    ContentCollection: string,
    BM42Collection: string)

  datatype APIConfig = APIConfig(EmbeddingServer: string, Timeout: int)

  /** The search section after `setDefaults`: both weights become 0.5 only when both are zero,
      and a zero `MaxResults` becomes 10. */
  function SearchDefaults(s: SearchConfig): (r: SearchConfig)
    ensures r.MinScore == s.MinScore && r.OverlapBonus == s.OverlapBonus
    ensures r.OverlapPriority == s.OverlapPriority
    ensures r.EmbeddingWeight != 0.0 || r.BM42Weight != 0.0
    ensures r.MaxResults != 0
  {
    var weighted :=
      if s.EmbeddingWeight == 0.0 && s.BM42Weight == 0.0 then s.(EmbeddingWeight := 0.5, BM42Weight := 0.5)
      else s;
    if weighted.MaxResults == 0 then weighted.(MaxResults := 10) else weighted
  }

  /** The database section after `setDefaults`. */
  function DatabaseDefaults(d: DatabaseConfig): (r: DatabaseConfig)
    ensures r.TitleCollection == d.TitleCollection && r.ContentCollection == d.ContentCollection
    ensures r.BM42Collection == d.BM42Collection
    ensures r.QdrantHost != "" && r.QdrantPort != 0 && r.CollectionName != ""
  {
    d.(QdrantHost := if d.QdrantHost == "" then "localhost" else d.QdrantHost,
       QdrantPort := if d.QdrantPort == 0 then 6334 else d.QdrantPort,
       CollectionName := if d.CollectionName == "" then "default_collection" else d.CollectionName)
  }

  /** The API section after `setDefaults`. */
  function APIDefaults(a: APIConfig): (r: APIConfig)
    ensures r.EmbeddingServer != "" && r.Timeout != 0
  {
    a.(EmbeddingServer := if a.EmbeddingServer == "" then "http://localhost:8080/v1" else a.EmbeddingServer,
       Timeout := if a.Timeout == 0 then 30 else a.Timeout)
  }

  /** A field that is already set (nonzero / nonempty) is never overwritten, and a field that
      is unset receives its documented default. */
  lemma DefaultsOnlyFillZeroFields(s: SearchConfig, d: DatabaseConfig, a: APIConfig)
    ensures (s.EmbeddingWeight != 0.0 || s.BM42Weight != 0.0) ==>
      SearchDefaults(s).EmbeddingWeight == s.EmbeddingWeight && SearchDefaults(s).BM42Weight == s.BM42Weight
    ensures (s.EmbeddingWeight == 0.0 && s.BM42Weight == 0.0) ==>
      SearchDefaults(s).EmbeddingWeight == 0.5 && SearchDefaults(s).BM42Weight == 0.5
    ensures SearchDefaults(s).MaxResults == if s.MaxResults == 0 then 10 else s.MaxResults
    ensures DatabaseDefaults(d).QdrantHost == if d.QdrantHost == "" then "localhost" else d.QdrantHost
    ensures DatabaseDefaults(d).QdrantPort == if d.QdrantPort == 0 then 6334 else d.QdrantPort
    ensures DatabaseDefaults(d).CollectionName ==
      if d.CollectionName == "" then "default_collection" else d.CollectionName
    ensures APIDefaults(a).EmbeddingServer ==
      if a.EmbeddingServer == "" then "http://localhost:8080/v1" else a.EmbeddingServer
    ensures APIDefaults(a).Timeout == if a.Timeout == 0 then 30 else a.Timeout
  {
  }

  /** Applying the defaults twice is the same as applying them once. */
  lemma DefaultsIdempotent(s: SearchConfig, d: DatabaseConfig, a: APIConfig)
    ensures SearchDefaults(SearchDefaults(s)) == SearchDefaults(s)
    ensures DatabaseDefaults(DatabaseDefaults(d)) == DatabaseDefaults(d)
    ensures APIDefaults(APIDefaults(a)) == APIDefaults(a)
  {
  }

  const DefaultSearchConfig := SearchConfig(0.5, 0.5, 10, 0.1, 2.0, true)
  const DefaultDatabaseConfig :=
    DatabaseConfig("localhost", 6334, "jira_issues", "jira_titles", "jira_contents", "jira_issues_bm42")
  const DefaultAPIConfig := APIConfig("http://localhost:8080/v1", 30)

  /** The configuration that `GetDefaultConfig` builds already satisfies every default rule. */
  lemma DefaultConfigIsFixpoint()
    ensures SearchDefaults(DefaultSearchConfig) == DefaultSearchConfig
    ensures DatabaseDefaults(DefaultDatabaseConfig) == DefaultDatabaseConfig
    ensures APIDefaults(DefaultAPIConfig) == DefaultAPIConfig
  {
  }

  /** The loaded configuration (Go `*Config`), updated in place by `SetDefaults`. */
  class Config {
    var Search: SearchConfig
    var Database: DatabaseConfig
    var API: APIConfig

    constructor (search: SearchConfig, database: DatabaseConfig, api: APIConfig)
      ensures Search == search && Database == database && API == api
    {
      Search, Database, API := search, database, api;
    }

    /** `setDefaults`: guarded in-place assignments, one rule per unset field, section by
        section. */
    method SetDefaults()
      modifies this
      ensures Search == SearchDefaults(old(Search))
      ensures Database == DatabaseDefaults(old(Database))
      ensures API == APIDefaults(old(API))
    {
      SetSearchDefaults();
      SetDatabaseDefaults();
      SetAPIDefaults();
    }

    method SetSearchDefaults()
      modifies this
      ensures Search == SearchDefaults(old(Search))
      ensures Database == old(Database) && API == old(API)
    {
      var s := Search;
      if s.EmbeddingWeight == 0.0 && s.BM42Weight == 0.0 {
        s := s.(EmbeddingWeight := 0.5);
        s := s.(BM42Weight := 0.5);
      }
      if s.MaxResults == 0 {
        s := s.(MaxResults := 10);
      }
      Search := s;
    }

    method SetDatabaseDefaults()
      modifies this
      ensures Database == DatabaseDefaults(old(Database))
      ensures Search == old(Search) && API == old(API)
    {
      var d := Database;
      if d.QdrantHost == "" {
        d := d.(QdrantHost := "localhost");
      }
      if d.QdrantPort == 0 {
        d := d.(QdrantPort := 6334);
      }
      if d.CollectionName == "" {
        d := d.(CollectionName := "default_collection");
      }
      Database := d;
    }

    method SetAPIDefaults()
      modifies this
      ensures API == APIDefaults(old(API))
      ensures Search == old(Search) && Database == old(Database)
    {
      var a := API;
      if a.EmbeddingServer == "" {
        a := a.(EmbeddingServer := "http://localhost:8080/v1");
      }
      if a.Timeout == 0 {
        a := a.(Timeout := 30);
      }
      API := a;
    }
  }

  /** `GetDefaultConfig`: a fresh configuration holding the default constants. */
  method GetDefaultConfig() returns (c: Config)
    ensures fresh(c)
    ensures c.Search == DefaultSearchConfig && c.Database == DefaultDatabaseConfig && c.API == DefaultAPIConfig
    ensures c.Search.MinScore == 0.1 && c.Search.OverlapBonus == 2.0 && c.Search.OverlapPriority
  {
    c := new Config(DefaultSearchConfig, DefaultDatabaseConfig, DefaultAPIConfig);
  }
}
