/** The url a row holds for an uploaded avatar, and the object key recovered from it. */
module AvatarUrls {
  import opened Orders

  type Key = string

  const AVATARS := "avatars/"

  function BeforeQuery(url: string): string {
    if url == "" || url[0] == '?' then "" else [url[0]] + BeforeQuery(url[1..])
  }

  predicate StartsWith(s: string, prefix: string) {
    |prefix| <= |s| && s[..|prefix|] == prefix
  }

  predicate HasDotDot(s: string) {
    exists i :: 0 <= i < |s| - 1 && s[i] == '.' && s[i + 1] == '.'
  }

  predicate IsAvatarKey(key: Key) {
    StartsWith(key, AVATARS) && !HasDotDot(key)
  }

  /** `origin` is the bucket domain, or the proxy path on the site's own origin, with its slash. */
  function AvatarUrl(origin: string, key: Key, version: string): string {
    origin + key + "?v=" + version
  }

  function KeyFromPublicUrl(origin: string, url: string): Option<Key> {
    var path := BeforeQuery(url);
    if !StartsWith(path, origin) then None
    else
      var key := path[|origin|..];
      if IsAvatarKey(key) then Some(key) else None
  }

  lemma {:induction false} BeforeQueryStops(path: string, query: string)
    requires '?' !in path && (query == "" || query[0] == '?')
    ensures BeforeQuery(path + query) == path
    decreases |path|
  {
    if path != "" {
      assert (path + query)[1..] == path[1..] + query;
      BeforeQueryStops(path[1..], query);
    } else {
      assert path + query == query;
    }
  }

  lemma {:induction false} BeforeQuerySplits(url: string)
    ensures var path := BeforeQuery(url);
      '?' !in path && |path| <= |url| && url[..|path|] == path && (|path| < |url| ==> url[|path|] == '?')
    decreases |url|
  {
    if url != "" && url[0] != '?' { BeforeQuerySplits(url[1..]); }
  }

  /** The key recovered from a row is the one its url was made from. */
  lemma AvatarUrlsMapBack(origin: string, key: Key, version: string)
    requires '?' !in origin && '?' !in key && IsAvatarKey(key)
    ensures KeyFromPublicUrl(origin, AvatarUrl(origin, key, version)) == Some(key)
  {
    var query := "?v=" + version;
    assert AvatarUrl(origin, key, version) == (origin + key) + query;
    BeforeQueryStops(origin + key, query);
    assert (origin + key)[..|origin|] == origin && (origin + key)[|origin|..] == key;
  }

  predicate Around(s: string, before: string, after: string) {
    s == before + ".." + after
  }

  /** An object under `avatars/` whose key does not climb. */
  ghost predicate NamesAvatar(key: Key) {
    "avatars/" <= key && forall before: string, after: string :: !Around(key, before, after)
  }

  lemma AvatarKeys(key: Key)
    ensures IsAvatarKey(key) <==> NamesAvatar(key)
  {
    if HasDotDot(key) {
      var i :| 0 <= i < |key| - 1 && key[i] == '.' && key[i + 1] == '.';
      assert key == key[..i] + ".." + key[i + 2..];
      assert Around(key, key[..i], key[i + 2..]);
    }
    forall before: string, after: string | Around(key, before, after) ensures HasDotDot(key) {
      assert key[|before|] == '.' && key[|before| + 1] == '.';
    }
  }

  ghost predicate Composed(origin: string, url: string, key: Key, query: string) {
    url == origin + key + query && NamesAvatar(key) && '?' !in origin + key && (query == "" || query[0] == '?')
  }

  /** No url of another origin or outside the avatars gives a key: nothing else is ever deleted. */
  lemma KeysComeFromOurUrls(origin: string, url: string)
    ensures KeyFromPublicUrl(origin, url).Some? <==> exists key: Key, query: string :: Composed(origin, url, key, query)
    ensures forall key: Key, query: string :: Composed(origin, url, key, query) ==>
      KeyFromPublicUrl(origin, url) == Some(key)
  {
    var path := BeforeQuery(url);
    BeforeQuerySplits(url);
    var r := KeyFromPublicUrl(origin, url);
    if r.Some? {
      var query := url[|path|..];
      AvatarKeys(r.value);
      assert origin + r.value == path;
      assert Composed(origin, url, r.value, query);
    }
    forall key: Key, query: string | Composed(origin, url, key, query) ensures r == Some(key) {
      ComposedGivesKey(origin, url, key, query);
    }
  }

  lemma ComposedGivesKey(origin: string, url: string, key: Key, query: string)
    requires Composed(origin, url, key, query)
    ensures KeyFromPublicUrl(origin, url) == Some(key)
  {
    AvatarKeys(key);
    assert url == (origin + key) + query;
    BeforeQueryStops(origin + key, query);
    assert (origin + key)[..|origin|] == origin && (origin + key)[|origin|..] == key;
  }
}
