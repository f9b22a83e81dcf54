/** `_to_async_url`: the database URL handed to the async engine. A
    synchronous SQLite URL is rewritten to name the `aiosqlite` driver;
    any other URL is used as configured. */
module Db {
  import opened Strings

  const SyncPrefix := "sqlite:///"
  const AsyncPrefix := "sqlite+aiosqlite:///"

  /** No URL starts with both prefixes: they differ in their seventh
      character. The second test of the guard never decides anything. */
  lemma PrefixesExclusive(url: string)
    ensures !(StartsWith(url, SyncPrefix) && StartsWith(url, AsyncPrefix))
  {
    if StartsWith(url, SyncPrefix) {
      assert url[6] == SyncPrefix[6] == ':';
      assert AsyncPrefix[6] == '+';
    }
  }

  function ToAsyncUrl(url: string): (r: string)
    ensures StartsWith(url, SyncPrefix) ==>
              r == AsyncPrefix + url[|SyncPrefix|..] && |r| == |url| + 10
    ensures !StartsWith(url, SyncPrefix) ==> r == url
  {
    PrefixesExclusive(url);
    if StartsWith(url, SyncPrefix) && !StartsWith(url, AsyncPrefix) then
      AsyncPrefix + url[|SyncPrefix|..]
    else url
  }

  /** A rewritten URL never starts with the synchronous prefix, so a second
      rewrite changes nothing. */
  lemma ToAsyncUrlIdempotent(url: string)
    ensures ToAsyncUrl(ToAsyncUrl(url)) == ToAsyncUrl(url)
  {
    var r := ToAsyncUrl(url);
    if StartsWith(url, SyncPrefix) {
      PrefixesExclusive(r);
      assert r[..|AsyncPrefix|] == AsyncPrefix;
      assert r[6] == '+';
    }
  }

  /** Any path after the synchronous prefix is kept after the async one. */
  lemma RewritesSyncUrl(path: string)
    ensures ToAsyncUrl(SyncPrefix + path) == AsyncPrefix + path
  {
    var url := SyncPrefix + path;
    assert url[..|SyncPrefix|] == SyncPrefix;
    assert url[|SyncPrefix|..] == path;
  }

  /** The default `db_url` setting: the synchronous prefix followed by the
      absolute path `/data/coursegen.db`. */
  const DefaultDbUrl := SyncPrefix + "/data/coursegen.db"

  /** The default setting becomes the same path with the async driver. */
  lemma DefaultUrl()
    ensures ToAsyncUrl(DefaultDbUrl) == AsyncPrefix + "/data/coursegen.db"
  {
    RewritesSyncUrl("/data/coursegen.db");
  }
}
