/**
 * The image route (server/src/routes/images.ts): how a request path becomes
 * a path relative to the image directory, the order of the access and
 * existence decisions, and the content type of the response. Joining,
 * resolving, the extension and the file's existence come from Node's `path`
 * and `fs` modules; here they are inputs.
 */
module Images {
  import opened Strings

  const ApiImagesPrefix := "/api/images"
  const ImgsSegment := "/imgs/"
  const ImgsPrefix := "imgs/"

  /**
   * `s.replace(pat, rep)` with a string pattern and a replacement without `$`
   * patterns: only the first occurrence is replaced.
   */
  function ReplaceFirst(s: string, pat: string, rep: string): (r: string)
    ensures !Contains(s, pat) ==> r == s
    ensures Contains(s, pat) ==>
              exists k :: OccursAt(s, pat, k) && (forall j :: 0 <= j < k ==> !OccursAt(s, pat, j)) &&
                r == s[..k] + rep + s[k + |pat|..]
  {
    var i := IndexOf(s, pat);
    if i == -1 then s else s[..i] + rep + s[i + |pat|..]
  }

  /**
   * `req.params[0] || req.path.replace('/api/images', '')`: the wildcard
   * parameter when it is non-empty, otherwise the router path without its
   * first "/api/images".
   */
  function RequestedPath(wildcard: string, routerPath: string): (r: string)
    ensures wildcard != [] ==> r == wildcard
    ensures wildcard == [] && !Contains(routerPath, ApiImagesPrefix) ==> r == routerPath
    ensures wildcard == [] && StartsWith(routerPath, ApiImagesPrefix) ==> r == routerPath[|ApiImagesPrefix|..]
    ensures wildcard == [] && Contains(routerPath, ApiImagesPrefix) ==>
              exists k :: OccursAt(routerPath, ApiImagesPrefix, k) &&
                (forall j :: 0 <= j < k ==> !OccursAt(routerPath, ApiImagesPrefix, j)) &&
                r == routerPath[..k] + routerPath[k + |ApiImagesPrefix|..]
  {
    if wildcard != [] then wildcard
    else
      assert StartsWith(routerPath, ApiImagesPrefix) ==> OccursAt(routerPath, ApiImagesPrefix, 0);
      ReplaceFirst(routerPath, ApiImagesPrefix, "")
  }

  /** Drops one leading '/', if there is one. */
  function StripLeadingSlash(p: string): (r: string)
    ensures EndsWith(p, r)
    ensures StartsWith(p, "/") ==> |r| == |p| - 1
    ensures !StartsWith(p, "/") ==> r == p
  {
    if StartsWith(p, "/") then p[1..] else p
  }

  /**
   * The path relative to the image directory: after stripping one leading
   * '/', everything after the first "/imgs/"; failing that, the path without
   * a leading "imgs/"; failing that, the path itself.
   */
  function RelativePath(requested: string): (r: string)
    ensures EndsWith(requested, r)
  {
    var p := StripLeadingSlash(requested);
    var i := IndexOf(p, ImgsSegment);
    if i != -1 then p[i + |ImgsSegment|..]
    else if StartsWith(p, ImgsPrefix) then p[|ImgsPrefix|..]
    else p
  }

  /** The result is everything after the first "/imgs/" of the stripped path. */
  lemma RelativePathAfterFirstImgs(requested: string, before: string, after: string)
    requires StripLeadingSlash(requested) == before + ImgsSegment + after
    requires !Contains(before + "/imgs", ImgsSegment)
    ensures RelativePath(requested) == after
  {
    assert ImgsSegment[..|ImgsSegment| - 1] == "/imgs";
    FirstOccurrenceAfter(before, ImgsSegment, after);
    var p := before + ImgsSegment + after;
    assert p[|before| + |ImgsSegment|..] == after;
  }

  /** Without "/imgs/", a leading "imgs/" is dropped. */
  lemma RelativePathLeadingImgs(requested: string)
    requires !Contains(StripLeadingSlash(requested), ImgsSegment)
    requires StartsWith(StripLeadingSlash(requested), ImgsPrefix)
    ensures RelativePath(requested) == StripLeadingSlash(requested)[|ImgsPrefix|..]
  {
  }

  /** With neither, the stripped path is used as it is. */
  lemma RelativePathUnchanged(requested: string)
    requires !Contains(StripLeadingSlash(requested), ImgsSegment)
    requires !StartsWith(StripLeadingSlash(requested), ImgsPrefix)
    ensures RelativePath(requested) == StripLeadingSlash(requested)
  {
  }

  /** The stored path quoted in the route's own comment yields the dated file under the image directory. */
  lemma RelativePathOfStoredExample()
    ensures RelativePath("/mnt/GreenhouseData/imgs/2023/04/23/img_1682303523_19_32_03.jpg")
            == "2023/04/23/img_1682303523_19_32_03.jpg"
  {
    StoredExampleSplits();
    StoredExampleHasNoEarlierImgs();
    RelativePathAfterFirstImgs(
      "/mnt/GreenhouseData/imgs/2023/04/23/img_1682303523_19_32_03.jpg",
      "mnt/GreenhouseData", "2023/04/23/img_1682303523_19_32_03.jpg");
  }

  lemma StoredExampleSplits()
    ensures StripLeadingSlash("/mnt/GreenhouseData/imgs/2023/04/23/img_1682303523_19_32_03.jpg")
            == "mnt/GreenhouseData" + ImgsSegment + "2023/04/23/img_1682303523_19_32_03.jpg"
  {
    var stored := "/mnt/GreenhouseData/imgs/2023/04/23/img_1682303523_19_32_03.jpg";
    var rest := "mnt/GreenhouseData" + ImgsSegment + "2023/04/23/img_1682303523_19_32_03.jpg";
    StoredExampleIsSlashThenRest();
    assert stored == "/" + rest;
    assert stored[1..] == rest;
  }

  lemma StoredExampleIsSlashThenRest()
    ensures "/mnt/GreenhouseData/imgs/2023/04/23/img_1682303523_19_32_03.jpg"
            == "/" + ("mnt/GreenhouseData" + ImgsSegment + "2023/04/23/img_1682303523_19_32_03.jpg")
  {
    var dir, after := "mnt/GreenhouseData" + ImgsSegment, "2023/04/23/img_1682303523_19_32_03.jpg";
    StoredExampleDirectory();
    StoredExampleFile();
    assert ("/" + dir) + after == "/" + (dir + after);
  }

  lemma StoredExampleFile()
    ensures "/mnt/GreenhouseData/imgs/" + "2023/04/23/img_1682303523_19_32_03.jpg"
            == "/mnt/GreenhouseData/imgs/2023/04/23/img_1682303523_19_32_03.jpg"
  {
  }

  lemma StoredExampleDirectory()
    ensures "/" + ("mnt/GreenhouseData" + ImgsSegment) == "/mnt/GreenhouseData/imgs/"
  {
    assert "mnt/GreenhouseData" + ImgsSegment == "mnt/GreenhouseData/imgs/";
  }

  lemma StoredExampleHasNoEarlierImgs()
    ensures !Contains("mnt/GreenhouseData" + "/imgs", ImgsSegment)
  {
    var head, middle := "mnt/", "GreenhouseData";
    assert '/' !in middle;
    assert head + middle == "mnt/GreenhouseData";
    var early := head + middle + "/imgs";
    forall k | 0 <= k && k + 6 <= |early| ensures !OccursAt(early, ImgsSegment, k) {
      var window := early[k..k + 6];
      assert window[0] == early[k] && window[5] == early[k + 5];
      if k + 5 < 18 {
        assert early[k + 5] == middle[k + 1];
        assert window[5] != ImgsSegment[5];
      } else {
        assert early[k] == middle[k - 4];
        assert window[0] != ImgsSegment[0];
      }
    }
  }

  /** `ext.toLowerCase()` chosen between "image/jpeg" and "image/png". */
  function ContentType(ext: string): (r: string)
    ensures r == "image/png" <==> ToLower(ext) == ".png"
    ensures r == "image/jpeg" <==> ToLower(ext) != ".png"
  {
    var e := ToLower(ext);
    if e == ".jpg" || e == ".jpeg" then "image/jpeg"
    else if e == ".png" then "image/png"
    else "image/jpeg"
  }

  /** The content type does not depend on the case of the extension. */
  lemma ContentTypeIgnoresCase(ext: string)
    ensures ContentType(ToLower(ext)) == ContentType(ext)
  {
  }

  /** The outcome of an image request, with its status code. */
  datatype ImageResponse = Forbidden | NotFound | Send(file: string, contentType: string)
  {
    function Status(): int {
      match this
      case Forbidden => 403
      case NotFound => 404
      case Send(_, _) => 200
    }
  }

  /**
   * The decisions after resolution, in the route's order: 403 when the resolved
   * path does not start with the resolved base, then 404 when the file is
   * missing, then the file with its content type.
   */
  function Respond(resolvedPath: string, resolvedBase: string, fileExists: bool, ext: string): (r: ImageResponse)
    ensures r.Status() == 403 <==> !StartsWith(resolvedPath, resolvedBase)
    ensures r.Status() == 404 <==> StartsWith(resolvedPath, resolvedBase) && !fileExists
    ensures r.Status() == 200 <==> StartsWith(resolvedPath, resolvedBase) && fileExists
    ensures r.Send? ==> r.file == resolvedPath && r.contentType == ContentType(ext)
  {
    if !StartsWith(resolvedPath, resolvedBase) then Forbidden
    else if !fileExists then NotFound
    else Send(resolvedPath, ContentType(ext))
  }

  /** `path` is the directory `base` itself or lies below it. */
  predicate WithinDirectory(path: string, base: string) {
    path == base || StartsWith(path, if EndsWith(base, "/") then base else base + "/")
  }

  /** The prefix test admits a sibling directory whose name extends the base's. */
  lemma PrefixCheckAdmitsSibling()
    ensures Respond("/data/imgs-private/a.jpg", "/data/imgs", true, ".jpg").Send?
    ensures !WithinDirectory("/data/imgs-private/a.jpg", "/data/imgs")
  {
    assert StartsWith("/data/imgs-private/a.jpg", "/data/imgs");
    assert ("/data/imgs-private/a.jpg")[10] == '-';
  }

  /** The decisions with the containment test the route's comment asks for. */
  function RespondWithinBase(resolvedPath: string, resolvedBase: string, fileExists: bool, ext: string): (r: ImageResponse)
    ensures r.Status() == 403 <==> !WithinDirectory(resolvedPath, resolvedBase)
    ensures r.Status() == 404 <==> WithinDirectory(resolvedPath, resolvedBase) && !fileExists
    ensures r.Send? ==> WithinDirectory(r.file, resolvedBase) && r.file == resolvedPath && r.contentType == ContentType(ext)
    ensures !r.Forbidden? ==> r == Respond(resolvedPath, resolvedBase, fileExists, ext)
  {
    if !WithinDirectory(resolvedPath, resolvedBase) then Forbidden
    else if !fileExists then NotFound
    else Send(resolvedPath, ContentType(ext))
  }
}
