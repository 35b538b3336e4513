/**
 * The client and the server agree on image paths: the URL the dashboard
 * builds for a stored absolute file name is taken apart again by the image
 * route, which recovers the file's path below the image directory.
 */
module ImageUrls {
  import opened Strings
  import ApiClient
  import Images

  /**
   * For a stored file "/<dir>/imgs/<rel>" where "/imgs/" does not already occur
   * within "<dir>/imgs", the route recovers <rel> from the part of the URL
   * after "/api/images".
   */
  lemma {:induction false} ImageUrlRoundTrip(dir: string, rel: string)
    requires !Contains(dir + "/imgs", Images.ImgsSegment)
    ensures var url := ApiClient.ImageUrl("/" + dir + Images.ImgsSegment + rel);
            StartsWith(url, "/api/images") && Images.RelativePath(url[11..]) == rel
  {
    var stored := "/" + dir + Images.ImgsSegment + rel;
    var url := ApiClient.ImageUrl(stored);
    assert url[11..] == stored;
    assert stored == "/" + (dir + Images.ImgsSegment + rel);
    assert Images.StripLeadingSlash(stored) == dir + Images.ImgsSegment + rel;
    Images.RelativePathAfterFirstImgs(stored, dir, rel);
  }

  /**
   * The same round trip through the route's first line: for the wildcard route
   * Express's wildcard parameter is the URL after "/api/images/", and the
   * route recovers <rel> from it when `<dir>` is non-empty and does not start
   * with '/'.
   */
  lemma {:induction false} WildcardRoundTrip(dir: string, rel: string)
    requires !Contains(dir + "/imgs", Images.ImgsSegment)
    ensures var url := ApiClient.ImageUrl("/" + dir + Images.ImgsSegment + rel);
            dir != [] && dir[0] != '/' ==>
              |url| >= 12 && Images.RelativePath(Images.RequestedPath(url[12..], "")) == rel
  {
    var tail := dir + Images.ImgsSegment + rel;
    if dir != [] && dir[0] != '/' {
      UrlAfterSlash(tail);
      assert "/" + dir + Images.ImgsSegment + rel == "/" + tail;
      WildcardOfTail(dir, rel);
    }
  }

  /** The part of the URL of "/" + `tail` after "/api/images/" is `tail`. */
  lemma UrlAfterSlash(tail: string)
    ensures var url := ApiClient.ImageUrl("/" + tail); |url| >= 12 && url[12..] == tail
  {
    var stored := "/" + tail;
    var url := ApiClient.ImageUrl(stored);
    assert url[11..] == stored;
    assert url[12..] == stored[1..];
  }

  /** The route's first line and the path split for a wildcard "<dir>/imgs/<rel>". */
  lemma WildcardOfTail(dir: string, rel: string)
    requires dir != [] && dir[0] != '/'
    requires !Contains(dir + "/imgs", Images.ImgsSegment)
    ensures Images.RelativePath(Images.RequestedPath(dir + Images.ImgsSegment + rel, "")) == rel
  {
    var tail := dir + Images.ImgsSegment + rel;
    assert tail[0] == dir[0];
    assert !StartsWith(tail, "/");
    Images.RelativePathAfterFirstImgs(tail, dir, rel);
  }
}
