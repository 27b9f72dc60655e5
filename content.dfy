/**
 * Content URLs (src/matrix/Content.hpp, src/matrix/Content.cpp): an `mxc`
 * URL names a piece of content by the host that stores it and an id; the
 * same content is fetched over HTTP from the homeserver's media API, whole
 * or as a thumbnail. A URL is kept as its components in decoded form.
 */
module Contents {
  import opened Wrappers
  import opened Numerals
  import opened Hashing

  /** The parts of a `QUrl` the client reads and writes, each fully decoded. */
  datatype Url = Url(scheme: string, host: string, path: string, query: seq<(string, string)>)

  /** `Content`: the host that stores the content and the content's id there. */
  datatype Content = Content(host: string, id: string)

  /** `illegal_content_scheme` */
  datatype ContentError = IllegalContentScheme

  /** C++ `int`. */
  type Int32 = x: int | -0x8000_0000 <= x < 0x8000_0000

  /** `QSize` */
  datatype Size = Size(width: Int32, height: Int32)

  /** `ThumbnailMethod`, in declaration order (CROP is 0, SCALE is 1). */
  datatype ThumbnailMethod = Crop | Scale

  /** `Thumbnail` */
  datatype Thumbnail = Thumbnail(content: Content, size: Size, resizing: ThumbnailMethod)

  const MxcScheme: string := "mxc"
  const DownloadPrefix: string := "/_matrix/media/r0/download/"
  const ThumbnailPrefix: string := "/_matrix/media/r0/thumbnail/"

  /** `operator==(Content, Content)`: host and id compared, nothing else. */
  function ContentEquals(a: Content, b: Content): (r: bool)
    ensures r <==> a == b
  {
    a.host == b.host && a.id == b.id
  }

  /** `operator==(Thumbnail, Thumbnail)` */
  function ThumbnailEquals(a: Thumbnail, b: Thumbnail): (r: bool)
    ensures r <==> a == b
  {
    ContentEquals(a.content, b.content) && a.size == b.size && a.resizing == b.resizing
  }

  /** `Content(QUrl)`: only `mxc` URLs name content; the id is the path without its leading character. */
  function ParseContent(url: Url): (r: Result<Content, ContentError>)
    ensures r.Ok? <==> url.scheme == MxcScheme
    ensures r.Ok? ==> r.value.host == url.host
    ensures r.Ok? && url.path != [] ==> [url.path[0]] + r.value.id == url.path
    ensures r.Ok? && url.path == [] ==> r.value.id == []
  {
    if url.scheme != MxcScheme then Err(IllegalContentScheme)
    else Ok(Content(url.host, if url.path == [] then [] else url.path[1..]))
  }

  /** `Content::url`: the `mxc` URL that parses back to the content. */
  function ContentUrl(c: Content): (r: Url)
    ensures ParseContent(r) == Ok(c)
    ensures r.scheme == MxcScheme && r.query == []
  {
    Url(MxcScheme, c.host, "/" + c.id, [])
  }

  /** An `mxc` URL with a path starting at `/` and no query is the URL of the content it names. */
  lemma ParsedContentUrl(url: Url)
    requires url.scheme == MxcScheme && url.path != [] && url.path[0] == '/' && url.query == []
    ensures ContentUrl(ParseContent(url).value) == url
  {
    assert "/" + url.path[1..] == url.path;
  }

  /** `Content::url_on`: the homeserver URL with the path of the media download API. */
  function DownloadUrl(c: Content, homeserver: Url): (r: Url)
    ensures r.scheme == homeserver.scheme && r.host == homeserver.host && r.query == homeserver.query
    ensures |r.path| > |DownloadPrefix| && r.path[..|DownloadPrefix|] == DownloadPrefix
  {
    homeserver.(path := DownloadPrefix + c.host + "/" + c.id)
  }

  /** `QString::number(n)` for an `int`. */
  function IntDecimal(n: int): (r: string)
    ensures r != [] && (r[0] == '-' <==> n < 0)
  {
    assert '-' !in Digits;
    if n < 0 then "-" + Decimal(-n) else Decimal(n)
  }

  /** `Thumbnail::url_on`: the thumbnail API path, with the size and method as the query. */
  function ThumbnailUrl(t: Thumbnail, homeserver: Url): (r: Url)
    ensures r.scheme == homeserver.scheme && r.host == homeserver.host
    ensures |r.path| > |ThumbnailPrefix| && r.path[..|ThumbnailPrefix|] == ThumbnailPrefix
    ensures |r.query| == 3 && r.query[0].0 == "width" && r.query[1].0 == "height" && r.query[2].0 == "method"
    ensures r.query[2].1 == (if t.resizing == Scale then "scale" else "crop")
  {
    var query := [("width", IntDecimal(t.size.width)), ("height", IntDecimal(t.size.height)),
                  ("method", if t.resizing == Scale then "scale" else "crop")];
    homeserver.(query := query, path := ThumbnailPrefix + t.content.host + "/" + t.content.id)
  }

  // --- the media paths name the content ------------------------------------

  /** The position of the first `/` in `s`, or its length when there is none. */
  function SlashIndex(s: string): (k: nat)
    ensures k <= |s|
  {
    if s == [] || s[0] == '/' then 0 else 1 + SlashIndex(s[1..])
  }

  lemma {:induction false} SlashAfterHost(h: string, i: string)
    requires '/' !in h
    ensures SlashIndex(h + "/" + i) == |h|
  {
    if h != [] {
      assert (h + "/" + i)[1..] == h[1..] + "/" + i;
      assert h[0] in h;
      SlashAfterHost(h[1..], i);
    }
  }

  /** Splitting at the first `/` after a host that holds none recovers host and id. */
  lemma HostIdSplit(p: string, h1: string, i1: string, h2: string, i2: string)
    requires '/' !in h1 && '/' !in h2
    requires p + h1 + "/" + i1 == p + h2 + "/" + i2
    ensures h1 == h2 && i1 == i2
  {
    var s := p + h1 + "/" + i1;
    var t := p + h2 + "/" + i2;
    assert s[|p|..] == h1 + "/" + i1 && t[|p|..] == h2 + "/" + i2;
    SlashAfterHost(h1, i1);
    SlashAfterHost(h2, i2);
    assert h1 == s[|p|..|p| + |h1|] && h2 == t[|p|..|p| + |h2|];
    assert i1 == s[|p| + |h1| + 1..] && i2 == t[|p| + |h2| + 1..];
  }

  /** Two contents on hosts without `/` share a download URL only when they are the same. */
  lemma DownloadUrlInjective(a: Content, b: Content, homeserver: Url)
    requires '/' !in a.host && '/' !in b.host
    requires DownloadUrl(a, homeserver) == DownloadUrl(b, homeserver)
    ensures a == b
  {
    HostIdSplit(DownloadPrefix, a.host, a.id, b.host, b.id);
  }

  lemma IntDecimalInjective(m: int, n: int)
    requires IntDecimal(m) == IntDecimal(n)
    ensures m == n
  {
    var a := IntDecimal(m);
    var k1: nat, k2: nat := if m < 0 then -m else m, if n < 0 then -n else n;
    assert (m < 0) == (n < 0);
    assert ToBase(k1, 10) == ToBase(k2, 10) by {
      if m < 0 {
        assert ToBase(k1, 10) == a[1..] == ToBase(k2, 10);
      }
    }
    FromToBase(k1, 10);
    FromToBase(k2, 10);
    assert k1 == k2;
  }

  /** Two thumbnails of contents on hosts without `/` share a URL only when they are the same. */
  lemma ThumbnailUrlInjective(a: Thumbnail, b: Thumbnail, homeserver: Url)
    requires '/' !in a.content.host && '/' !in b.content.host
    requires ThumbnailUrl(a, homeserver) == ThumbnailUrl(b, homeserver)
    ensures a == b
  {
    var ua, ub := ThumbnailUrl(a, homeserver), ThumbnailUrl(b, homeserver);
    HostIdSplit(ThumbnailPrefix, a.content.host, a.content.id, b.content.host, b.content.id);
    assert ua.query[0].1 == ub.query[0].1 && ua.query[1].1 == ub.query[1].1;
    IntDecimalInjective(a.size.width, b.size.width);
    IntDecimalInjective(a.size.height, b.size.height);
    assert ua.query[2].1 == ub.query[2].1;
  }

  // --- hashes --------------------------------------------------------------

  /** `std::hash<Content>`, over the string hash `qHash`: host and id combined. */
  function ContentHash(c: Content, qHash: string -> U64): U64 {
    HashCombine(qHash(c.host), qHash(c.id))
  }

  /** `std::hash<int>`: the value converted to `size_t`, negative values wrapping. */
  function IntHash(n: Int32): (r: U64)
    ensures n >= 0 ==> r == n
  {
    if n < 0 then n + Modulus else n
  }

  /** `std::hash<ThumbnailMethod>`: the enumerator's value. */
  function MethodHash(m: ThumbnailMethod): (r: U64)
    ensures r < 2
  {
    if m == Crop then 0 else 1
  }

  /** `std::hash<Thumbnail>`: content, width, height and method folded in with `hash_combine`. */
  function ThumbnailHash(t: Thumbnail, qHash: string -> U64): U64 {
    HashCombine(HashCombine(HashCombine(ContentHash(t.content, qHash), IntHash(t.size.width)),
                            IntHash(t.size.height)),
                MethodHash(t.resizing))
  }

  /** Contents on one host whose ids hash apart have different hashes. */
  lemma ContentHashSeparatesIds(a: Content, b: Content, qHash: string -> U64)
    requires a.host == b.host && qHash(a.id) != qHash(b.id)
    ensures ContentHash(a, qHash) != ContentHash(b, qHash)
  {
    HashCombineInjective(qHash(a.host), qHash(a.id), qHash(b.id));
  }

  /** The crop and the scaled thumbnail of the same content and size never share a hash. */
  lemma ThumbnailHashSeparatesMethods(t: Thumbnail, qHash: string -> U64)
    ensures ThumbnailHash(t.(resizing := Crop), qHash) != ThumbnailHash(t.(resizing := Scale), qHash)
  {
    var h := HashCombine(HashCombine(ContentHash(t.content, qHash), IntHash(t.size.width)), IntHash(t.size.height));
    HashCombineInjective(h, MethodHash(Crop), MethodHash(Scale));
  }
}
