/**
 How the worker turns a request URL into a manifest key. There are two rules:
 the fetch handler's (origin stripped, cut at the first `?v=`, entry-document
 URLs collapsed to "/"), and the weaker one used by activation and the
 offline download (origin stripped, "" becomes "/").
 */
module Keys {
  import opened Strings

  type Url = string
  type Key = string

  /** The cache-busting marker the fetch handler cuts at. */
  const VersionMarker: string := "?v="

  /** The sentinel key of the entry document. */
  const Root: Key := "/"

  /** `k.split("?v=")[0]` when `k` holds the marker, `k` itself otherwise. */
  function BeforeVersion(k: string): (r: string)
    ensures |r| <= |k| && r == k[..|r|]
    ensures IndexOf(r, VersionMarker) == -1
    ensures r == k || OccursAt(k, VersionMarker, |r|)
  {
    var i := IndexOf(k, VersionMarker);
    if i != -1 then
      var r := k[..i];
      forall j: nat
        ensures !OccursAt(r, VersionMarker, j)
      {
        if OccursAt(r, VersionMarker, j) {
          OccursInPrefix(k, i, VersionMarker, j);
        }
      }
      r
    else k
  }

  /** The fetch handler's key for a request URL. */
  function FetchKey(origin: string, url: Url): (r: Key)
    ensures r != ""
    ensures IndexOf(r, VersionMarker) == -1
    ensures url == origin || StartsWith(url, origin + "/#") ==> r == Root
    ensures r == Root || StartsWith(Substring(url, |origin| + 1), r)
    ensures url != origin && !StartsWith(url, origin + "/#") && BeforeVersion(Substring(url, |origin| + 1)) != "" ==>
      r == BeforeVersion(Substring(url, |origin| + 1))
    ensures BeforeVersion(Substring(url, |origin| + 1)) == "" ==> r == Root
  {
    var key := BeforeVersion(Substring(url, |origin| + 1));
    if url == origin || StartsWith(url, origin + "/#") || key == "" then Root else key
  }

  /** The activation (and offline download) key for a cached URL. */
  function ActivateKey(origin: string, url: Url): (r: Key)
    ensures r != ""
    ensures r == Root || (|origin| + 1 < |url| && url == url[..|origin| + 1] + r)
    ensures |origin| + 1 < |url| ==> r == url[|origin| + 1..]
    ensures |url| <= |origin| + 1 ==> r == Root
  {
    var key := Substring(url, |origin| + 1);
    if key == "" then Root else key
  }

  /** A manifest key as the generated manifest writes it: the entry document
      "/" or a non-empty path relative to the origin root. A key starting with
      `?` or `#` would resolve against the worker script's own URL, so it is
      not one. */
  predicate RootRelative(k: Key)
  {
    k == Root || (k != "" && k[0] != '/' && k[0] != '?' && k[0] != '#')
  }

  /** The URL a request for key `k` resolves to, for a worker served from the
      origin root: an absolute path is appended to the origin, a relative one
      after a "/". */
  function Resolve(origin: string, k: Key): (u: Url)
    ensures |origin| < |u|
    ensures u[..|origin| + 1] == origin + "/"
    ensures u == origin + "/" + (if |k| > 0 && k[0] == '/' then k[1..] else k)
  {
    if |k| > 0 && k[0] == '/' then origin + k else origin + "/" + k
  }

  /** The activation rule recovers every root-relative key from its URL. */
  lemma ActivateKeyOfResolve(origin: string, k: Key)
    requires RootRelative(k)
    ensures ActivateKey(origin, Resolve(origin, k)) == k
  {
  }

  /** The fetch rule recovers every root-relative key from its URL, unless
      the key carries the version marker itself. */
  lemma FetchKeyOfResolve(origin: string, k: Key)
    requires RootRelative(k)
    requires IndexOf(k, VersionMarker) == -1
    ensures FetchKey(origin, Resolve(origin, k)) == k
  {
  }

  /** No occurrence of the marker straddles the end of `k` when the marker
      follows `k`: the marker has no proper prefix that is also a suffix. */
  lemma NoStraddle(k: string, t: string, j: nat)
    requires j < |k| < j + |VersionMarker|
    ensures !OccursAt(k + VersionMarker + t, VersionMarker, j)
  {
    var s := k + VersionMarker + t;
    assert s[|k|] == '?';
    if OccursAt(s, VersionMarker, j) {
      assert s[j..j + 3][|k| - j] == s[|k|];
      assert VersionMarker[|k| - j] != '?';
    }
  }

  /** Cutting at the first marker ignores whatever follows an appended marker. */
  lemma {:induction false} BeforeVersionIgnoresSuffix(k: string, t: string)
    ensures BeforeVersion(k + VersionMarker + t) == BeforeVersion(k)
  {
    var s := k + VersionMarker + t;
    var i := IndexOf(k, VersionMarker);
    if i != -1 {
      OccursInConcat(k, VersionMarker + t, VersionMarker, i);
      assert s == k + (VersionMarker + t);
      forall j: nat | j < i
        ensures !OccursAt(s, VersionMarker, j)
      {
        OccursInConcat(k, VersionMarker + t, VersionMarker, j);
      }
      IndexOfIsFirst(s, VersionMarker, i);
      assert s[..i] == k[..i];
    } else {
      assert s[|k|..|k| + 3] == VersionMarker;
      forall j: nat | j < |k|
        ensures !OccursAt(s, VersionMarker, j)
      {
        if j + |VersionMarker| <= |k| {
          assert s == k + (VersionMarker + t);
          OccursInConcat(k, VersionMarker + t, VersionMarker, j);
        } else {
          NoStraddle(k, t, j);
        }
      }
      IndexOfIsFirst(s, VersionMarker, |k|);
      assert s[..|k|] == k;
    }
  }

  /** A `?v=` query does not change the fetch key: `main.dart.js?v=3` and
      `main.dart.js` name the same resource. */
  lemma VersionQueryIgnored(origin: string, path: string, v: string)
    ensures FetchKey(origin, origin + "/" + path + VersionMarker + v) == FetchKey(origin, origin + "/" + path)
  {
    var plain := origin + "/" + path;
    var versioned := origin + "/" + path + VersionMarker + v;
    assert Substring(plain, |origin| + 1) == path;
    assert Substring(versioned, |origin| + 1) == path + VersionMarker + v;
    BeforeVersionIgnoresSuffix(path, v);
    assert versioned != origin && plain != origin;
    if path == "" {
      assert !StartsWith(plain, origin + "/#");
      assert versioned[|origin| + 1] == '?';
      assert !StartsWith(versioned, origin + "/#");
    } else {
      assert versioned[..|origin| + 2] == plain[..|origin| + 2];
    }
  }

  /** The two rules disagree on versioned URLs: activation keeps the query. */
  lemma ActivateKeyKeepsVersion(origin: string, path: string, v: string)
    ensures ActivateKey(origin, origin + "/" + path + VersionMarker + v) == path + VersionMarker + v
  {
  }
}
