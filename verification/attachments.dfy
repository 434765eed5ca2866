/** The checks applied to a picture picked from a file: its media type must
    be an image type, and a large payload needs the user's confirmation. */
module Attachments {

  /** Payload length above which the user is asked to confirm (5 MB). */
  const ImageSizeLimit: nat := 5000000

  /** The part of a media type before its first '/', the whole string when
      it has none (`split('/')[0]`). */
  function MediaTypePrefix(mediaType: string): (r: string)
    ensures r <= mediaType
    ensures '/' !in r
    ensures |r| < |mediaType| ==> mediaType[|r|] == '/'
  {
    if |mediaType| == 0 || mediaType[0] == '/' then ""
    else [mediaType[0]] + MediaTypePrefix(mediaType[1..])
  }

  /** The file's declared media type names the "image" category. */
  predicate IsFileImage(mediaType: string) {
    MediaTypePrefix(mediaType) == "image"
  }

  /** A media type is an image type exactly when it is "image" or starts
      with "image/". */
  lemma IsFileImageExactly(mediaType: string)
    ensures IsFileImage(mediaType) <==>
      mediaType == "image" || (|mediaType| >= 6 && mediaType[..6] == "image/")
  {
    var p := MediaTypePrefix(mediaType);
    if |mediaType| >= 6 && mediaType[..6] == "image/" {
      assert mediaType[5] == '/' && mediaType[..5] == "image";
      assert forall i :: 0 <= i < 5 ==> mediaType[i] != '/';
      assert p == mediaType[..5];
    }
    if p == "image" && mediaType != "image" {
      assert |p| < |mediaType|;
      assert mediaType[..6] == p + "/";
    }
  }

  /** A payload over the limit needs the user's confirmation. */
  predicate NeedsSizeConfirmation(payload: string) {
    |payload| > ImageSizeLimit
  }

  /** The form's picture after an image file was read: `userConfirms` is
      the answer the user gives when asked, which happens only for an
      oversize payload. */
  function AttachedPicture(current: string, payload: string, userConfirms: bool): (r: string)
    ensures r == payload || r == current
    ensures |payload| <= ImageSizeLimit ==> r == payload
    ensures userConfirms ==> r == payload
    ensures |payload| > ImageSizeLimit && !userConfirms ==> r == current
    ensures r != payload ==> |payload| > 5000000 && !userConfirms
  {
    if NeedsSizeConfirmation(payload) && !userConfirms then current else payload
  }
}
