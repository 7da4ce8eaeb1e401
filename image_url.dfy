/** `getImageUrl`: the public URL of a stored image, from the storage base
    URL and the image path, joined by one slash without normalisation. */
module ImageUrl {
  import opened JsValues

  const MissingStorage: Failure := Message("Missing EXPO_PUBLIC_STORAGE_URL")

  /** `getImageUrl(image)`, where `image` is None for `null`/`undefined` and
      `storageBase` is the value of `EXPO_PUBLIC_STORAGE_URL`. An empty or
      absent image gives the empty string before the variable is read. */
  function GetImageUrl(image: Option<string>, storageBase: Option<string>): (r: Result<string>)
    ensures FalsyText(image) ==> r == Ok("")
    ensures !FalsyText(image) && FalsyText(storageBase) ==> r == Err(MissingStorage)
  {
    if FalsyText(image) then Ok("")
    else if FalsyText(storageBase) then Err(MissingStorage)
    else Ok(storageBase.value + "/" + image.value)
  }

  /** The URL is empty exactly when there is no image, and a missing storage
      base is an error exactly when there is an image to locate. */
  lemma GetImageUrlCases(image: Option<string>, storageBase: Option<string>)
    ensures GetImageUrl(image, storageBase) == Ok("") <==> FalsyText(image)
    ensures GetImageUrl(image, storageBase).Err? <==> !FalsyText(image) && FalsyText(storageBase)
  {
    var r := GetImageUrl(image, storageBase);
    if !FalsyText(image) && !FalsyText(storageBase) {
      assert |r.value| > 0;
    }
  }

  /** A URL splits back into the base and the image path at the base's
      length: the join adds exactly one '/' and changes neither part. */
  lemma GetImageUrlRoundTrip(image: string, base: string)
    requires image != "" && base != ""
    ensures GetImageUrl(Some(image), Some(base)).Ok?
    ensures var url := GetImageUrl(Some(image), Some(base)).value;
      && |url| == |base| + 1 + |image|
      && url[..|base|] == base && url[|base|] == '/' && url[|base| + 1..] == image
  {
    var url := GetImageUrl(Some(image), Some(base)).value;
    assert url == base + "/" + image;
    assert url[..|base|] == base;
    assert url[|base| + 1..] == image;
  }

  /** No slash normalisation: a base ending in '/' and a path starting with
      '/' give three slashes in a row. */
  lemma NoSlashNormalisation(image: string, base: string)
    requires base != "" && base[|base| - 1] == '/'
    requires image != "" && image[0] == '/'
    ensures var url := GetImageUrl(Some(image), Some(base)).value;
      url[|base| - 1] == '/' && url[|base|] == '/' && url[|base| + 1] == '/'
  {
    GetImageUrlRoundTrip(image, base);
  }
}
