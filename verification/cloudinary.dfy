/**
 * The blob-service helpers: the public-id extraction used before a delete,
 * and the null-returning guards around upload and destroy. The network calls
 * themselves are parameters (`Cloud`).
 */
module Cloudinary {
  import opened Wrappers
  import opened Text
  import opened Paging

  /** What an upload answers with; `duration` is present for videos. */
  datatype Upload = Upload(url: string, secureUrl: string, duration: Option<int>)

  /**
   * The remote service: `uploader.upload(path)` and
   * `uploader.destroy(publicId, resourceType)`, the latter giving the
   * `result` field of its answer. `None` stands for a call that threw.
   */
  datatype Cloud = Cloud(upload: string -> Option<Upload>, destroy: (string, string) -> Option<string>)

  /**
   * `url.split("/upload/")[1]`: the text between the first "/upload/" and the
   * next one, or the end. `None` is `undefined`, when there is no "/upload/".
   */
  function UploadSegment(url: string): (r: Option<string>)
    ensures r.None? <==> !Contains(url, "/upload/")
    ensures r.Some? ==> !Contains(r.value, "/upload/")
  {
    match IndexOf(url, "/upload/")
    case None => None
    case Some(i) =>
      var rest := url[i + 8..];
      match IndexOf(rest, "/upload/")
      case None => Some(rest)
      case Some(j) =>
        var seg := rest[..j];
        assert forall k :: 0 <= k <= |seg| && OccursAt(seg, "/upload/", k) ==> OccursAt(rest, "/upload/", k);
        Some(seg)
  }

  /** A match of `^v\d+\/`: a "v", at least one decimal digit, and a slash. */
  predicate IsVersionPrefix(p: string) {
    |p| >= 3 && p[0] == 'v' && p[|p| - 1] == '/' && forall k :: 1 <= k < |p| - 1 ==> IsDigit(p[k])
  }

  predicate HasVersionPrefix(s: string) {
    exists k :: 0 < k <= |s| && IsVersionPrefix(s[..k])
  }

  /** A version prefix, when there is one, has exactly one possible length. */
  lemma VersionPrefixUnique(s: string, k: nat, k': nat)
    requires 0 < k <= |s| && 0 < k' <= |s|
    requires IsVersionPrefix(s[..k]) && IsVersionPrefix(s[..k'])
    ensures k == k'
  {
  }

  /** `s.replace(/^v\d+\//, "")`: at most one leading version prefix is removed. */
  function StripVersion(s: string): (r: string)
    ensures HasVersionPrefix(s) ==> exists k :: 0 < k <= |s| && IsVersionPrefix(s[..k]) && r == s[k..]
    ensures !HasVersionPrefix(s) ==> r == s
  {
    if |s| >= 1 && s[0] == 'v' then
      var ds := LeadingDigits(s[1..]);
      var k := |ds| + 2;
      if ds != [] && k <= |s| && s[k - 1] == '/' then
        assert s[..k][1..k - 1] == ds;
        assert IsVersionPrefix(s[..k]);
        s[k..]
      else
        assert !HasVersionPrefix(s) by {
          if k' :| 0 < k' <= |s| && IsVersionPrefix(s[..k']) {
            VersionRunIsLeadingDigits(s, k');
          }
        }
        s
    else s
  }

  lemma VersionRunIsLeadingDigits(s: string, k: nat)
    requires 0 < k <= |s| && IsVersionPrefix(s[..k])
    ensures LeadingDigits(s[1..]) == s[1..k - 1]
  {
    var t := s[1..];
    assert t == s[1..k - 1] + s[k - 1..];
    var ds := s[1..k - 1];
    var p := s[..k];
    assert AllDigits(ds) by {
      forall j | 0 <= j < |ds| ensures IsDigit(ds[j]) {
        assert ds[j] == p[j + 1];
      }
    }
    LeadingDigitsOfDigits(s[1..k - 1], s[k - 1..]);
  }

  /** A match of `\.[^/.]+$`: a dot and at least one character that is neither "/" nor ".". */
  predicate IsExtension(e: string) {
    |e| >= 2 && e[0] == '.' && forall k :: 1 <= k < |e| ==> e[k] != '/' && e[k] != '.'
  }

  predicate HasExtension(s: string) {
    exists k :: 0 <= k <= |s| && IsExtension(s[k..])
  }

  /** The length of the longest suffix of `s` free of "/" and ".". */
  function TailRun(s: string): (n: nat)
    ensures n <= |s|
    ensures forall k :: |s| - n <= k < |s| ==> s[k] != '/' && s[k] != '.'
    ensures n < |s| ==> s[|s| - n - 1] == '/' || s[|s| - n - 1] == '.'
  {
    if |s| == 0 || s[|s| - 1] == '/' || s[|s| - 1] == '.' then 0
    else TailRun(s[..|s| - 1]) + 1
  }

  /** `s.replace(/\.[^/.]+$/, "")`: the final extension, if any, is removed. */
  function StripExtension(s: string): (r: string)
    ensures HasExtension(s) ==> exists k :: 0 <= k <= |s| && IsExtension(s[k..]) && r == s[..k]
    ensures !HasExtension(s) ==> r == s
  {
    var n := TailRun(s);
    if 1 <= n < |s| && s[|s| - n - 1] == '.' then
      assert IsExtension(s[|s| - n - 1..]);
      s[..|s| - n - 1]
    else
      assert !HasExtension(s) by {
        if k :| 0 <= k <= |s| && IsExtension(s[k..]) {
          assert s[k..][0] == '.';
          if k < |s| - n - 1 {
            assert s[k..][|s| - n - 1 - k] == s[|s| - n - 1];
          }
        }
      }
      s
  }

  /**
   * `getPublicIdFromUrl`: the segment after "/upload/", without a leading
   * version and without the file extension. `None` when the call throws
   * because the URL has no "/upload/".
   */
  function PublicIdFromUrl(url: string): (r: Option<string>)
    ensures r.None? <==> !Contains(url, "/upload/")
  {
    match UploadSegment(url)
    case None => None
    case Some(seg) => Some(StripExtension(StripVersion(seg)))
  }

  /**
   * A delivery URL built from a public id comes back to that id: the folders
   * in the id are kept, one version prefix and the extension are dropped.
   */
  lemma {:induction false} PublicIdRoundTrip(base: string, version: Option<string>, publicId: string, ext: string)
    requires !Contains(base + "/upload", "/upload/")
    requires version.Some? ==> version.value != [] && AllDigits(version.value)
    requires version.None? ==> !HasVersionPrefix(publicId + "." + ext)
    requires ext != [] && forall k :: 0 <= k < |ext| ==> ext[k] != '/' && ext[k] != '.'
    requires !Contains(VersionText(version) + publicId + "." + ext, "/upload/")
    ensures PublicIdFromUrl(base + "/upload/" + VersionText(version) + publicId + "." + ext) == Some(publicId)
  {
    var body := publicId + "." + ext;
    var tail := VersionText(version) + body;
    assert base + "/upload/" + VersionText(version) + publicId + "." + ext == base + "/upload/" + tail;
    assert VersionText(version) + publicId + "." + ext == tail;
    UploadSegmentOf(base, tail);
    StripVersionOf(version, body);
    StripExtensionOf(publicId, ext);
  }

  lemma UploadSegmentOf(base: string, tail: string)
    requires !Contains(base + "/upload", "/upload/")
    requires !Contains(tail, "/upload/")
    ensures UploadSegment(base + "/upload/" + tail) == Some(tail)
  {
    var url := base + "/upload/" + tail;
    assert url == (base + "/upload") + "/" + tail;
    assert OccursAt(url, "/upload/", |base|);
    forall i | 0 <= i < |base| ensures !OccursAt(url, "/upload/", i) {
      if OccursAt(url, "/upload/", i) {
        assert url[i..i + 8] == (base + "/upload")[i..i + 8];
        assert OccursAt(base + "/upload", "/upload/", i);
      }
    }
    assert IndexOf(url, "/upload/") == Some(|base|);
    assert url[|base| + 8..] == tail;
  }

  /** The version prefix a delivery URL may carry. */
  function VersionText(version: Option<string>): string {
    match version
    case None => []
    case Some(d) => "v" + d + "/"
  }

  lemma StripVersionOf(version: Option<string>, body: string)
    requires version.Some? ==> version.value != [] && AllDigits(version.value)
    requires version.None? ==> !HasVersionPrefix(body)
    ensures StripVersion(VersionText(version) + body) == body
  {
    if version.Some? {
      var d := version.value;
      var s := VersionText(version) + body;
      assert s == "v" + (d + "/" + body);
      assert s[1..] == d + ("/" + body);
      LeadingDigitsOfDigits(d, "/" + body);
      assert s[|d| + 2..] == body;
    } else {
      assert VersionText(version) + body == body;
    }
  }

  lemma StripExtensionOf(publicId: string, ext: string)
    requires ext != [] && forall k :: 0 <= k < |ext| ==> ext[k] != '/' && ext[k] != '.'
    ensures StripExtension(publicId + "." + ext) == publicId
  {
    var s := publicId + "." + ext;
    assert IsExtension(s[|publicId|..]) by {
      assert s[|publicId|..] == "." + ext;
    }
    var k :| 0 <= k <= |s| && IsExtension(s[k..]) && StripExtension(s) == s[..k];
    assert IsExtension(s[k..]);
    assert s[..|publicId|] == publicId;
  }

  /** `uploadOnCloudinary(path)`: `null` for a missing path, otherwise the service's answer. */
  function UploadOnCloudinary(cloud: Cloud, path: Option<string>): (r: Option<Upload>)
    ensures path.None? || path.value == [] ==> r.None?
    ensures path.Some? && path.value != [] ==> r == cloud.upload(path.value)
  {
    if path.None? || path.value == [] then None else cloud.upload(path.value)
  }

  /**
   * `deleteFromCloudinary(url, type)`: `null` for an empty URL and for any
   * thrown error, including the one a URL without "/upload/" causes;
   * otherwise the service's answer for the extracted public id.
   */
  function DeleteFromCloudinary(cloud: Cloud, url: string, resourceType: string): (r: Option<string>)
    ensures url == [] || !Contains(url, "/upload/") ==> r.None?
    ensures url != [] && Contains(url, "/upload/") ==> r == cloud.destroy(PublicIdFromUrl(url).value, resourceType)
  {
    if url == [] then None
    else match PublicIdFromUrl(url)
      case None => None
      case Some(publicId) => cloud.destroy(publicId, resourceType)
  }
}
