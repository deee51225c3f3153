/** The image selectors of the file store: pure reads of the store state that list the
    images attached to the chat input and the urls sent with a message. */
module ChatSelectors {
  import opened Common
  import opened FileTypes

  /** A stored image preview: its id, how it is saved, its inline data url, and its url. */
  datatype FilePreview = FilePreview(id: string, saveMode: Option<SaveMode>, base64Url: Option<string>, url: string)

  /** The part of the file store the selectors read. */
  datatype FilesStoreState = FilesStoreState(
    imagesMap: map<string, FilePreview>,
    uploadingIds: seq<string>,
    inputFilesList: seq<string>,
    chatUploadFileList: seq<UploadFileItem>)

  /** A preview with its loading flag. */
  datatype ImageDetail = ImageDetail(preview: FilePreview, loading: bool)

  /** An image id with the url to send; `None` stands for the `undefined` that the source
      casts to a string. */
  datatype ImageUrl = ImageUrl(id: string, url: Option<string>)

  /** The detail of a known preview: loading while its own id is being uploaded. */
  function DetailOf(preview: FilePreview, s: FilesStoreState): ImageDetail {
    ImageDetail(preview, preview.id in s.uploadingIds)
  }

  /** `getImageDetailByList`: the previews of the listed ids, in list order, skipping ids
      without a preview. */
  function GetImageDetailByList(list: seq<string>, s: FilesStoreState): (r: seq<ImageDetail>)
    ensures |r| <= |list|
    ensures forall j :: 0 <= j < |r| ==> (r[j].loading <==> r[j].preview.id in s.uploadingIds)
    ensures forall j :: 0 <= j < |r| ==> r[j].preview in s.imagesMap.Values
    ensures (forall i :: 0 <= i < |list| ==> list[i] in s.imagesMap) ==>
      |r| == |list| && forall j :: 0 <= j < |r| ==> r[j].preview == s.imagesMap[list[j]]
    ensures (forall i :: 0 <= i < |list| ==> list[i] !in s.imagesMap) ==> r == []
  {
    if list == [] then []
    else
      var rest := GetImageDetailByList(list[1..], s);
      if list[0] in s.imagesMap then [DetailOf(s.imagesMap[list[0]], s)] + rest else rest
  }

  /** Selecting over two lists one after the other gives the two selections concatenated:
      the result keeps the order of the list. */
  lemma {:induction false} GetImageDetailByListAppend(a: seq<string>, b: seq<string>, s: FilesStoreState)
    ensures GetImageDetailByList(a + b, s) == GetImageDetailByList(a, s) + GetImageDetailByList(b, s)
  {
    if a == [] {
      assert a + b == b;
    } else {
      assert (a + b)[0] == a[0] && (a + b)[1..] == a[1..] + b;
      GetImageDetailByListAppend(a[1..], b, s);
      if a[0] in s.imagesMap {
        AppendAssoc([DetailOf(s.imagesMap[a[0]], s)], GetImageDetailByList(a[1..], s), GetImageDetailByList(b, s));
      }
    }
  }

  /** The details of ids that all have a preview, in order. */
  function DetailsOf(ids: seq<string>, s: FilesStoreState): (r: seq<ImageDetail>)
    requires forall i :: 0 <= i < |ids| ==> ids[i] in s.imagesMap
    ensures |r| == |ids|
    ensures forall j :: 0 <= j < |ids| ==> r[j] == DetailOf(s.imagesMap[ids[j]], s)
  {
    if ids == [] then [] else [DetailOf(s.imagesMap[ids[0]], s)] + DetailsOf(ids[1..], s)
  }

  /** Reference reading of `map(...).filter(Boolean).map(...)`: keep the known ids, then look
      each one up and add its loading flag. */
  lemma {:induction false} GetImageDetailByListIsFilterMap(list: seq<string>, s: FilesStoreState)
    ensures GetImageDetailByList(list, s) == DetailsOf(Filter(list, k => k in s.imagesMap), s)
  {
    if list != [] {
      var rest := Filter(list[1..], k => k in s.imagesMap);
      GetImageDetailByListIsFilterMap(list[1..], s);
      if list[0] in s.imagesMap {
        assert Filter(list, k => k in s.imagesMap) == [list[0]] + rest;
        assert ([list[0]] + rest)[1..] == rest;
      }
    }
  }

  /** `imageDetailList`: the details of the files attached to the chat input. */
  function ImageDetailList(s: FilesStoreState): (r: seq<ImageDetail>)
    ensures |r| <= |s.inputFilesList|
    ensures forall j :: 0 <= j < |r| ==> (r[j].loading <==> r[j].preview.id in s.uploadingIds)
    ensures (forall i :: 0 <= i < |s.inputFilesList| ==> s.inputFilesList[i] in s.imagesMap) ==>
      |r| == |s.inputFilesList|
      && forall j :: 0 <= j < |r| ==> r[j].preview == s.imagesMap[s.inputFilesList[j]]
  {
    GetImageDetailByList(s.inputFilesList, s)
  }

  /** `getImageUrlOrBase64ById`: nothing for an unknown id; otherwise the id with the inline
      data url of a locally saved image, or the stored url of any other. */
  function GetImageUrlOrBase64ById(id: string, s: FilesStoreState): (r: Option<ImageUrl>)
    ensures r.None? <==> id !in s.imagesMap
    ensures r.Some? ==> r.value.id == id
    ensures r.Some? && s.imagesMap[id].saveMode == Some(Local) ==> r.value.url == s.imagesMap[id].base64Url
    ensures r.Some? && s.imagesMap[id].saveMode != Some(Local) ==> r.value.url == Some(s.imagesMap[id].url)
  {
    if id !in s.imagesMap then None
    else
      var preview := s.imagesMap[id];
      var url := if preview.saveMode == Some(Local) then preview.base64Url else Some(preview.url);
      Some(ImageUrl(id, url))
  }

  /** `getImageUrlOrBase64ByList`: the urls of the known ids, in list order. */
  function GetImageUrlOrBase64ByList(idList: seq<string>, s: FilesStoreState): (r: seq<ImageUrl>)
    ensures |r| <= |idList|
    ensures forall j :: 0 <= j < |r| ==> r[j].id in s.imagesMap
    ensures forall j :: 0 <= j < |r| ==> GetImageUrlOrBase64ById(r[j].id, s) == Some(r[j])
    ensures (forall i :: 0 <= i < |idList| ==> idList[i] in s.imagesMap) ==>
      |r| == |idList| && forall j :: 0 <= j < |r| ==> r[j].id == idList[j]
    ensures (forall i :: 0 <= i < |idList| ==> idList[i] !in s.imagesMap) ==> r == []
  {
    if idList == [] then []
    else
      var rest := GetImageUrlOrBase64ByList(idList[1..], s);
      match GetImageUrlOrBase64ById(idList[0], s)
      case Some(u) => [u] + rest
      case None => rest
  }

  /** The url list of two id lists in a row is the two url lists concatenated. */
  lemma {:induction false} GetImageUrlOrBase64ByListAppend(a: seq<string>, b: seq<string>, s: FilesStoreState)
    ensures GetImageUrlOrBase64ByList(a + b, s) == GetImageUrlOrBase64ByList(a, s) + GetImageUrlOrBase64ByList(b, s)
  {
    if a == [] {
      assert a + b == b;
    } else {
      assert (a + b)[0] == a[0] && (a + b)[1..] == a[1..] + b;
      GetImageUrlOrBase64ByListAppend(a[1..], b, s);
      if a[0] in s.imagesMap {
        AppendAssoc([GetImageUrlOrBase64ById(a[0], s).value], GetImageUrlOrBase64ByList(a[1..], s),
                    GetImageUrlOrBase64ByList(b, s));
      }
    }
  }

  /** The by-id answers of ids that all have a preview, in order. */
  function UrlsById(ids: seq<string>, s: FilesStoreState): (r: seq<ImageUrl>)
    requires forall i :: 0 <= i < |ids| ==> ids[i] in s.imagesMap
    ensures |r| == |ids|
    ensures forall j :: 0 <= j < |ids| ==> Some(r[j]) == GetImageUrlOrBase64ById(ids[j], s)
  {
    if ids == [] then [] else [GetImageUrlOrBase64ById(ids[0], s).value] + UrlsById(ids[1..], s)
  }

  /** Reference reading of `map(...).filter(Boolean)`: keep the known ids, then take each
      one's by-id answer. */
  lemma {:induction false} GetImageUrlOrBase64ByListIsFilterMap(idList: seq<string>, s: FilesStoreState)
    ensures GetImageUrlOrBase64ByList(idList, s) == UrlsById(Filter(idList, k => k in s.imagesMap), s)
  {
    if idList != [] {
      var rest := Filter(idList[1..], k => k in s.imagesMap);
      GetImageUrlOrBase64ByListIsFilterMap(idList[1..], s);
      if idList[0] in s.imagesMap {
        assert Filter(idList, k => k in s.imagesMap) == [idList[0]] + rest;
        assert ([idList[0]] + rest)[1..] == rest;
      }
    }
  }

  predicate IsImageItem(item: UploadFileItem) {
    StartsWith(item.file.fileType, "image")
  }

  function UrlOfItem(item: UploadFileItem): ImageUrl {
    ImageUrl(item.id, item.fileUrl)
  }

  /** `imageUrlOrBase64List`: the chat upload items whose type starts with "image", in list
      order, each as its id and uploaded url. */
  function ImageUrlOrBase64List(items: seq<UploadFileItem>): (r: seq<ImageUrl>)
    ensures |r| <= |items|
    ensures (forall i :: 0 <= i < |items| ==> !IsImageItem(items[i])) ==> r == []
    ensures (forall i :: 0 <= i < |items| ==> IsImageItem(items[i])) ==>
      |r| == |items| && forall j :: 0 <= j < |r| ==> r[j] == UrlOfItem(items[j])
  {
    if items == [] then []
    else
      var rest := ImageUrlOrBase64List(items[1..]);
      if IsImageItem(items[0]) then [UrlOfItem(items[0])] + rest else rest
  }

  /** Each item as its id and uploaded url, in order. */
  function UrlsOf(items: seq<UploadFileItem>): (r: seq<ImageUrl>)
    ensures |r| == |items|
    ensures forall j :: 0 <= j < |items| ==> r[j] == UrlOfItem(items[j])
  {
    if items == [] then [] else [UrlOfItem(items[0])] + UrlsOf(items[1..])
  }

  /** The url list is the image items, filtered in order, mapped to id and url. */
  lemma {:induction false} ImageUrlOrBase64ListIsFilterMap(items: seq<UploadFileItem>)
    ensures ImageUrlOrBase64List(items) == UrlsOf(Filter(items, IsImageItem))
  {
    if items != [] {
      var rest := Filter(items[1..], IsImageItem);
      ImageUrlOrBase64ListIsFilterMap(items[1..]);
      if IsImageItem(items[0]) {
        assert Filter(items, IsImageItem) == [items[0]] + rest;
        assert ([items[0]] + rest)[1..] == rest;
      }
    }
  }

  /** `isImageUploading`: some upload is in progress. */
  function IsImageUploading(s: FilesStoreState): (r: bool)
    ensures r <==> exists id :: id in s.uploadingIds
  {
    if |s.uploadingIds| > 0 then
      assert s.uploadingIds[0] in s.uploadingIds;
      true
    else false
  }
}
