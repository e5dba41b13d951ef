/** imageFromDataTransfer (src/client/utils.js:1-21): which image a drop onto the
    page brings, tried in order: a dropped file, a `data:` image inside dropped
    HTML, a dropped URI list (fetched through the server's proxy), or nothing.

    The drag payload is abstract: the HTML's parsing is reduced to the `src` of its
    first `<img>`, and URL.createObjectURL for the first file is the parameter
    `fileUrl`. */
module DropSource {
  import opened Wrappers
  import UriComponent
  import ProxyRoute

  datatype File = File(name: string)

  datatype DataTransfer = DataTransfer(
    files: seq<File>,
    html: string,                 // getData("text/html"); "" when there is none
    firstImgSrc: Option<string>,  // `src` of the first <img> of that HTML, if it has one
    types: seq<string>,
    uriList: string)              // getData("text/uri-list")

  /** The `{ name, url }` object the drop handler destructures. */
  datatype DroppedImage = DroppedImage(name: string, url: string)

  const UriListType: string := "text/uri-list"

  /** The HTML branch applies: the payload has HTML whose first image's src is a
      `data:` URL. */
  predicate HasDataImage(dt: DataTransfer) {
    dt.html != "" && dt.firstImgSrc.Some? && ProxyRoute.StartsWith(dt.firstImgSrc.value, "data:")
  }

  /** The image a drop brings, or None where the function returns undefined. */
  function ImageFromDataTransfer(dt: DataTransfer, fileUrl: string): (r: Option<DroppedImage>)
    ensures r.Some? && r.value.name != "image" ==> |dt.files| > 0
  {
    if |dt.files| > 0 then Some(DroppedImage(dt.files[0].name, fileUrl))
    else if HasDataImage(dt) then Some(DroppedImage("image", dt.firstImgSrc.value))
    else if UriListType in dt.types then
      Some(DroppedImage("image", ProxyRoute.Prefix + UriComponent.Encode(dt.uriList)))
    else None
  }

  // ---------------------------------------------------------------- lemmas

  /** A dropped file wins: its name and object URL are the result, and whatever
      HTML or URI list came with it is ignored. */
  lemma FileFirst(dt: DataTransfer, fileUrl: string, html: string, src: Option<string>,
                  types: seq<string>, uris: string)
    requires |dt.files| > 0
    ensures ImageFromDataTransfer(dt, fileUrl) == Some(DroppedImage(dt.files[0].name, fileUrl))
    ensures ImageFromDataTransfer(dt.(html := html, firstImgSrc := src, types := types, uriList := uris), fileUrl)
            == ImageFromDataTransfer(dt, fileUrl)
  {
  }

  /** Without a file, a `data:` image in the HTML is taken as it is, named "image". */
  lemma DataImageUnchanged(dt: DataTransfer, fileUrl: string)
    requires |dt.files| == 0 && HasDataImage(dt)
    ensures ImageFromDataTransfer(dt, fileUrl) == Some(DroppedImage("image", dt.firstImgSrc.value))
  {
  }

  /** HTML without an image, or whose image is not a `data:` URL, does not end the
      search: the result is what the payload would give with no HTML at all. */
  lemma HtmlFallsThrough(dt: DataTransfer, fileUrl: string)
    requires !HasDataImage(dt)
    ensures ImageFromDataTransfer(dt, fileUrl) == ImageFromDataTransfer(dt.(html := "", firstImgSrc := None), fileUrl)
  {
  }

  /** Nothing is found exactly when there is no file, no `data:` image and no URI
      list type. */
  lemma NothingFound(dt: DataTransfer, fileUrl: string)
    ensures ImageFromDataTransfer(dt, fileUrl).None? <==>
      |dt.files| == 0 && !HasDataImage(dt) && UriListType !in dt.types
  {
  }

  /** The path an image whose src is "/proxy/" + seg requests, for a seg free of
      '/': the URL parser drops a final "." segment, and a final ".." segment
      together with the segment before it (path state, section 4.4 of the WHATWG
      URL Standard). */
  function Requested(seg: string): (p: string)
    ensures seg != "." && seg != ".." ==> p == ProxyRoute.Prefix + seg
  {
    if seg == "." then ProxyRoute.Prefix
    else if seg == ".." then "/"
    else ProxyRoute.Prefix + seg
  }

  /** A dropped URI list reaches the server's route as exactly the list that was
      dropped: the encoded text is one path segment, and the router's decoding
      gives it back. An empty list yields "/proxy/", which the route does not
      match; so do "." and "..", which encodeURIComponent keeps as they are and
      the browser resolves away before the request is made. */
  lemma UriListReachesProxy(dt: DataTransfer, fileUrl: string)
    requires |dt.files| == 0 && !HasDataImage(dt) && UriListType in dt.types
    ensures var r := ImageFromDataTransfer(dt, fileUrl);
      r.Some? && r.value.name == "image" &&
      r.value.url == ProxyRoute.Prefix + UriComponent.Encode(dt.uriList) &&
      (dt.uriList != [] ==> ProxyRoute.MatchProxy(r.value.url) == ProxyRoute.Param(dt.uriList)) &&
      (dt.uriList == [] ==> ProxyRoute.MatchProxy(r.value.url) == ProxyRoute.NoRoute)
    ensures var sent := Requested(UriComponent.Encode(dt.uriList));
      (dt.uriList !in {"", ".", ".."} ==> ProxyRoute.MatchProxy(sent) == ProxyRoute.Param(dt.uriList)) &&
      (dt.uriList in {"", ".", ".."} ==> ProxyRoute.MatchProxy(sent) == ProxyRoute.NoRoute)
  {
    var s := dt.uriList;
    var e := UriComponent.Encode(s);
    ProxyRoute.RouteRoundTrip(s);
    UriComponent.DecodeEncode(s);
    if s == "." || s == ".." {
      assert UriComponent.EncodeChar('.') == ".";
      assert e == s;
      assert ProxyRoute.MatchProxy(ProxyRoute.Prefix) == ProxyRoute.NoRoute by {
        assert ProxyRoute.Prefix[..|ProxyRoute.Prefix|] == ProxyRoute.Prefix;
        assert ProxyRoute.Prefix[|ProxyRoute.Prefix|..] == [];
      }
    } else if e == "." || e == ".." {
      DotsDecode(e);
      assert false;
    }
  }

  /** "." and ".." decode to themselves. */
  lemma DotsDecode(e: string)
    requires e == "." || e == ".."
    ensures UriComponent.Decode(e) == Some(e)
  {
    var one, two := ".", "..";
    assert one[0] == '.' && one[1..] == [];
    assert two[0] == '.' && two[1..] == one;
    assert UriComponent.Decode(one[1..]) == Some([]);
    assert UriComponent.Decode(one) == UriComponent.Cons('.', Some([]));
    assert ['.'] + [] == one;
    assert UriComponent.Decode(two) == UriComponent.Cons('.', Some(one));
  }
}
