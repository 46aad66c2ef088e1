/** Types shared by every part of the model. */
module Common {

  datatype Option<+T> = None | Some(value: T)

  datatype Result<+T, +E> = Ok(value: T) | Err(error: E)

  /** A document id: a row number of the index. */
  type DocId = nat

  /** The canonical-URL key: 64 bits of hash, taken to be collision-free. */
  type UrlKey = k: int | 0 <= k < 0x1_0000_0000_0000_0000

  /** The parts of a parsed URL that the crate looks at. */
  datatype Url = Url(
    scheme: string,
    host: Option<string>,
    port: Option<nat>,
    path: string,
    query: Option<string>,
    fragment: Option<string>)

  datatype Metric = Cosine | Dot | L2

  /** `truncate(n)`. */
  function Truncate<T>(s: seq<T>, n: nat): (r: seq<T>)
    ensures r <= s && |r| <= n
    ensures n <= |s| ==> |r| == n
  {
    if |s| <= n then s else s[..n]
  }

  /** A document set by which a search is restricted; `None` restricts nothing. */
  predicate Allowed(allowed: Option<set<DocId>>, d: DocId) {
    allowed.None? || d in allowed.value
  }

  /** No element occurs twice. */
  ghost predicate Distinct<T>(s: seq<T>) {
    forall i, j :: 0 <= i < j < |s| ==> s[i] != s[j]
  }
}
