/** Which links the crawler follows and which pages it indexes. */
module CrawlScope {
  import opened Common
  import opened CrawlMachine

  datatype Scope =
    | PathPrefix
    | SameHost
    | SameHostAndSubdomains
    | Allowlist(hosts: seq<string>)

  predicate EndsWith(s: string, suffix: string) {
    |suffix| <= |s| && s[|s| - |suffix|..] == suffix
  }

  /** Equal to `base`, or a subdomain of it. */
  predicate HostUnder(host: string, base: string) {
    host == base
    || (|host| > |base| && EndsWith(host, base) && host[|host| - |base| - 1] == '.')
  }

  predicate PathUnder(root: string, path: string) {
    path == root
    || (|path| > |root| && root <= path && (EndsWith(root, "/") || path[|root|] == '/'))
  }

  /** An allowlist entry without its leading dot. */
  function AllowBase(entry: string): string {
    if entry != [] && entry[0] == '.' then entry[1..] else entry
  }

  predicate Allows(scope: Scope, root: Url, candidate: Url) {
    if root.host.None? || candidate.host.None? then false
    else
      var (rh, ch) := (root.host.value, candidate.host.value);
      match scope
      case PathPrefix => ch == rh && PathUnder(root.path, candidate.path)
      case SameHost => ch == rh
      case SameHostAndSubdomains => HostUnder(ch, rh)
      case Allowlist(hosts) => exists h :: h in hosts && HostUnder(ch, AllowBase(h))
  }

  /** A host is under `base` exactly when it is `base` behind some labels and a dot. */
  lemma HostUnderIff(host: string, base: string)
    ensures HostUnder(host, base) <==> host == base || exists labels: string :: host == labels + "." + base
  {
    if HostUnder(host, base) && host != base {
      var n := |host| - |base| - 1;
      assert host == host[..n] + "." + base;
    }
    if exists labels: string :: host == labels + "." + base {
      var labels :| host == labels + "." + base;
      assert host[|host| - |base|..] == base;
    }
  }

  lemma HostUnderTransitive(a: string, b: string, c: string)
    requires HostUnder(a, b) && HostUnder(b, c)
    ensures HostUnder(a, c)
  {
    HostUnderIff(a, b);
    HostUnderIff(b, c);
    HostUnderIff(a, c);
    if a != b && b != c {
      var p: string :| a == p + "." + b;
      var q: string :| b == q + "." + c;
      assert a == (p + "." + q) + "." + c;
    }
  }

  function Dir(path: string): string {
    if EndsWith(path, "/") then path else path + "/"
  }

  /** A path is under the root exactly when it is the root or lies in the root's directory:
      whole segments count, so `/docsearch` is not under `/docs`. */
  lemma PathUnderIff(root: string, path: string)
    ensures PathUnder(root, path) <==> path == root || Dir(root) <= path
  {
    if Dir(root) <= path && !EndsWith(root, "/") {
      assert path[..|root|] == Dir(root)[..|root|] == root;
      assert path[|root|] == Dir(root)[|root|];
    }
    if PathUnder(root, path) && path != root && !EndsWith(root, "/") {
      assert path[..|root| + 1] == root + [path[|root|]];
    }
  }

  /** The path-prefix scope is transitive: descending never leaves the root's scope. */
  lemma PathUnderTransitive(a: string, b: string, c: string)
    requires PathUnder(a, b) && PathUnder(b, c)
    ensures PathUnder(a, c)
  {
    PathUnderIff(a, b);
    PathUnderIff(b, c);
    PathUnderIff(a, c);
    if a != b && b != c {
      assert Dir(a) <= b <= Dir(b) <= c;
    }
  }

  // ---- paths and extensions ----

  predicate Contains(s: string, sub: string) {
    exists i :: 0 <= i <= |s| && sub <= s[i..]
  }

  predicate PathAllowed(u: Url, required: seq<string>) {
    forall sub :: sub in required ==> Contains(u.path, sub)
  }

  /** Everything after the last `c`, or nothing when there is none. */
  function AfterLast(s: string, c: char): (r: Option<string>)
    ensures r.None? <==> c !in s
    ensures r.Some? ==> c !in r.value && exists before: string :: s == before + [c] + r.value
  {
    if s == [] then None
    else if s[|s| - 1] == c then
      assert s == s[..|s| - 1] + [c] + [];
      Some([])
    else
      var init := s[..|s| - 1];
      assert s == init + [s[|s| - 1]];
      match AfterLast(init, c)
      case None => None
      case Some(t) =>
        assert forall before: string :: init == before + [c] + t ==> s == before + [c] + (t + [s[|s| - 1]]);
        Some(t + [s[|s| - 1]])
  }

  function ExtOf(path: string): Option<string> {
    var name := AfterLast(path, '/');
    AfterLast(if name.Some? then name.value else path, '.')
  }

  function LowerChar(c: char): char {
    if 'A' <= c <= 'Z' then c + ('a' - 'A') else c
  }

  function Lower(s: string): (r: string)
    ensures |r| == |s|
  {
    seq(|s|, i requires 0 <= i < |s| => LowerChar(s[i]))
  }

  const ASSET_EXTS: seq<string> := [
    "png", "jpg", "jpeg", "gif", "svg", "webp", "ico", "css", "js", "mjs", "woff", "woff2", "ttf",
    "eot", "zip", "tar", "gz", "mp4", "mp3", "wav", "avi", "mov", "wasm", "map"]

  predicate HasExtIn(u: Url, exts: seq<string>) {
    var e := ExtOf(u.path);
    e.Some? && exists x :: x in exts && Lower(x) == Lower(e.value)
  }

  predicate IsAsset(u: Url) { HasExtIn(u, ASSET_EXTS) }

  predicate ExtensionAllowed(u: Url, exts: seq<string>) {
    exts == [] || HasExtIn(u, exts)
  }

  // ---- the crawl configuration ----

  datatype Settings = Settings(
    maxDepth: nat,
    maxPages: nat,
    concurrency: nat,
    scope: Scope,
    requirePath: seq<string>,
    acceptExtensions: seq<string>,
    indexPath: seq<string>,
    knownEdges: map<UrlKey, seq<Url>>)

  predicate Follows(settings: Settings, root: Url, u: Url) {
    !IsAsset(u) && Allows(settings.scope, root, u) && PathAllowed(u, settings.requirePath)
  }

  /** The machine's configuration for a crawl from `root`. */
  function Configure(settings: Settings, root: Url, key: Url -> UrlKey): Config {
    Config(
      settings.maxDepth, settings.maxPages, settings.concurrency, key,
      (u: Url) => Allows(settings.scope, root, u),
      (u: Url) => Follows(settings, root, u),
      (u: Url) => ExtensionAllowed(u, settings.acceptExtensions) && PathAllowed(u, settings.indexPath),
      settings.knownEdges)
  }

  /** Every URL a configured crawl requests after the root passed the scope and path tests
      and is no asset, whatever the site serves. */
  lemma RequestsAreInScope(settings: Settings, root: Url, key: Url -> UrlKey, tr: seq<State>, n: nat, t: Task)
    requires Run(Configure(settings, root, key), root, tr) && n < |tr| && t in tr[n].requested
    ensures t == Task(root, 0) || Follows(settings, root, t.url)
  {
    var cfg := Configure(settings, root, key);
    RunKeepsInv(cfg, root, tr, n);
    hide Follows, Run;
    var s := tr[n];
    assert t in Log(s);
    var j :| 0 <= j < |Log(s)| && Log(s)[j] == t;
    assert j > 0 ==> cfg.follows(t.url);
  }
}
