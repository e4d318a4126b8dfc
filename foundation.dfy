/** The few Foundation types the library works with: raw `Data` and `URL`. */
module Foundation {

  /** One byte of a `Data` value. */
  newtype Byte = x: int | 0 <= x < 256

  /** Foundation's `Data`: a sequence of bytes. */
  type Data = seq<Byte>

  /** A URL, reduced to the parts the library looks at: the scheme, the host and the path.
      `absoluteString` is what the in-memory cache keys on, `path` is what the filesystem
      cache takes the last component of. */
  datatype Url = Url(scheme: string, host: string, path: string)

  /** A well-formed URL: a non-empty scheme without ':', a host without '/', and a path that
      is empty or absolute. */
  predicate ValidUrl(u: Url) {
    && |u.scheme| > 0
    && ':' !in u.scheme
    && '/' !in u.host
    && (u.path == [] || u.path[0] == '/')
  }

  /** `URL.absoluteString`: `scheme://host/path`. */
  function AbsoluteString(u: Url): string {
    u.scheme + "://" + u.host + u.path
  }

  /** The index of the first `sep` in `s`, or `|s|` when there is none. */
  function FirstIndexOf(s: string, sep: char): (i: nat)
    ensures i <= |s|
    ensures forall k :: 0 <= k < i ==> s[k] != sep
    ensures i < |s| ==> s[i] == sep
  {
    if s == [] then 0 else if s[0] == sep then 0 else 1 + FirstIndexOf(s[1..], sep)
  }

  /** Splitting `a + b` at its first `sep` recovers `a` when `a` holds no `sep` and `b` is
      empty or starts with one. */
  lemma {:induction false} FirstIndexOfJoin(sep: char, a: string, b: string)
    requires sep !in a
    requires b == [] || b[0] == sep
    ensures FirstIndexOf(a + b, sep) == |a|
  {
    if a != [] {
      assert a[0] in a;
      assert (a + b)[1..] == a[1..] + b;
      FirstIndexOfJoin(sep, a[1..], b);
    } else {
      assert a + b == b;
    }
  }

  /** If `a + b == c + d`, neither `a` nor `c` contains `sep`, and `b`, `d` are each empty or
      start with `sep`, then the split is the same on both sides. */
  lemma SplitAtSeparator(sep: char, a: string, b: string, c: string, d: string)
    requires sep !in a && sep !in c
    requires b == [] || b[0] == sep
    requires d == [] || d[0] == sep
    requires a + b == c + d
    ensures a == c && b == d
  {
    FirstIndexOfJoin(sep, a, b);
    FirstIndexOfJoin(sep, c, d);
    assert a == (a + b)[..|a|];
    assert c == (c + d)[..|c|];
    assert b == (a + b)[|a|..];
    assert d == (c + d)[|c|..];
  }

  /** Distinct well-formed URLs have distinct absolute strings, so a table keyed by
      `absoluteString` never lets two of them share an entry. */
  lemma AbsoluteStringInjective(u: Url, v: Url)
    requires ValidUrl(u) && ValidUrl(v)
    requires AbsoluteString(u) == AbsoluteString(v)
    ensures u == v
  {
    var ru := "://" + u.host + u.path;
    var rv := "://" + v.host + v.path;
    assert AbsoluteString(u) == u.scheme + ru;
    assert AbsoluteString(v) == v.scheme + rv;
    SplitAtSeparator(':', u.scheme, ru, v.scheme, rv);
    assert ru[3..] == u.host + u.path;
    assert rv[3..] == v.host + v.path;
    SplitAtSeparator('/', u.host, u.path, v.host, v.path);
  }
}
