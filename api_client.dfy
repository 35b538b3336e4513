/**
 * The one pure operation of the dashboard's API client
 * (client/src/api/client.ts): the URL under which the server's image route
 * serves a stored image file. The `fetch` calls are I/O and not modelled.
 */
module ApiClient {
  import opened Strings

  const ApiBase := "/api"
  const ImagesEndpoint := ApiBase + "/images"

  /**
   * `getImageUrl(filename)`: the empty string for an empty file name, otherwise
   * the stored (absolute) file name appended to "/api/images" with no separator added.
   */
  function ImageUrl(filename: string): (r: string)
    ensures filename == [] <==> r == []
    ensures filename != [] ==> |r| == 11 + |filename|
    ensures filename != [] ==> StartsWith(r, "/api/images") && EndsWith(r, filename)
  {
    assert ImagesEndpoint == "/api/images";
    if filename == [] then [] else ImagesEndpoint + filename
  }
}
