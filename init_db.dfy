/**
 * Backend detection in the database initialisation script
 * (backend/init_db.py): a total classifier of database URLs by prefix,
 * used to choose which troubleshooting hints to show.
 */
module InitDb {

  const SqliteName: string := "sqlite"
  const PostgresName: string := "postgresql"
  const OtherName: string := "other"

  /** `detect_database_backend`: "sqlite", "postgresql" or "other", by URL prefix. */
  function DetectDatabaseBackend(databaseUrl: string): (r: string)
    ensures r == SqliteName || r == PostgresName || r == OtherName
    ensures r == SqliteName <==> "sqlite" <= databaseUrl
    ensures r == PostgresName <==> !("sqlite" <= databaseUrl) && "postgres" <= databaseUrl
    ensures r == OtherName <==> !("sqlite" <= databaseUrl) && !("postgres" <= databaseUrl)
  {
    if "sqlite" <= databaseUrl then SqliteName
    else if "postgres" <= databaseUrl then PostgresName
    else OtherName
  }

  /** A `postgresql://` URL also starts with "postgres"; the empty URL is "other". */
  lemma DetectExamples()
    ensures DetectDatabaseBackend("postgresql://localhost/intune_db") == "postgresql"
    ensures DetectDatabaseBackend("postgres://localhost/intune_db") == "postgresql"
    ensures DetectDatabaseBackend("sqlite:///./intune.db") == "sqlite"
    ensures DetectDatabaseBackend("") == "other"
    ensures DetectDatabaseBackend("mysql://localhost/intune_db") == "other"
  {
    assert "postgres" <= "postgresql://localhost/intune_db";
    assert "postgresql://localhost/intune_db"[0] != "sqlite"[0];
    assert "postgres" <= "postgres://localhost/intune_db";
    assert "postgres://localhost/intune_db"[0] != "sqlite"[0];
    assert "sqlite" <= "sqlite:///./intune.db";
    assert "mysql://localhost/intune_db"[0] != "sqlite"[0];
    assert "mysql://localhost/intune_db"[0] != "postgres"[0];
  }
}
