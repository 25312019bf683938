/**
 * The two-way mapper between the domain records and the Avro-generated records.
 *
 * The enum codecs and the image mappers are functions. The operations that build
 * their lists by appending in a loop (Forward, ForwardMedia, Reverse, ReverseMedia)
 * are methods, each proved equal to a specification function (EncodeContent,
 * EncodeMedia, DecodeContent, DecodeMedia) about which the laws are stated.
 */
module AvroTransformer {
  import opened Wrappers
  import opened Ints
  import D = DomainMedia
  import A = AvroMedia

  /** The exceptions the transformer can raise. */
  datatype Error =
    | InvalidPlayerCode(code: int32)   // AssertionError in reversePlayer
    | InvalidSizeCode(code: int32)     // AssertionError in reverseSize
    | NegativeArraySize(size: int32)   // NegativeArraySizeException in resultArray

  /** The integer codes an enumeration may travel as: 1 and 2. */
  predicate ValidCode(code: int32) {
    code == 1 || code == 2
  }

  predicate AllSizesValid(images: seq<A.Image>) {
    forall k :: 0 <= k < |images| ==> ValidCode(images[k].size)
  }

  /** Image `k` is the first one, in list order, whose size code is invalid. */
  predicate FirstInvalidSize(images: seq<A.Image>, k: int) {
    && 0 <= k < |images|
    && !ValidCode(images[k].size)
    && forall j :: 0 <= j < k ==> ValidCode(images[j].size)
  }

  /** Every enumeration code in an Avro record is one the reverse mapping accepts. */
  predicate ValidCodes(mc: A.MediaContent) {
    ValidCode(mc.media.player) && AllSizesValid(mc.images)
  }

  // ----------------------------------------------------------
  // Enum codecs

  function ReversePlayer(code: int32): (r: Result<D.Player, Error>)
    ensures r.Success? <==> ValidCode(code)
    ensures r.Failure? ==> r.error == InvalidPlayerCode(code)
    ensures r.Success? ==> (r.value == D.Java <==> code == 1)
  {
    match code
    case 1 => Success(D.Java)
    case 2 => Success(D.Flash)
    case _ => Failure(InvalidPlayerCode(code))
  }

  function ForwardPlayer(p: D.Player): (code: int32)
    ensures ValidCode(code)
    ensures ReversePlayer(code) == Success(p)
  {
    match p
    case Java => 1
    case Flash => 2
  }

  function ReverseSize(code: int32): (r: Result<D.Size, Error>)
    ensures r.Success? <==> ValidCode(code)
    ensures r.Failure? ==> r.error == InvalidSizeCode(code)
    ensures r.Success? ==> (r.value == D.Small <==> code == 1)
  {
    match code
    case 1 => Success(D.Small)
    case 2 => Success(D.Large)
    case _ => Failure(InvalidSizeCode(code))
  }

  function ForwardSize(s: D.Size): (code: int32)
    ensures ValidCode(code)
    ensures ReverseSize(code) == Success(s)
  {
    match s
    case Small => 1
    case Large => 2
  }

  // ----------------------------------------------------------
  // Images

  function ReverseImage(image: A.Image): (r: Result<D.Image, Error>)
    ensures r.Success? <==> ValidCode(image.size)
    ensures r.Failure? ==> r.error == InvalidSizeCode(image.size)
    ensures r.Success? ==> r.value.title == image.title && r.value.uri == image.uri
    ensures r.Success? ==> r.value.width == image.width && r.value.height == image.height
  {
    var size :- ReverseSize(image.size);
    Success(D.Image(image.uri, image.title, image.width, image.height, size))
  }

  function ForwardImage(image: D.Image): (i: A.Image)
    ensures i.uri == image.uri && i.title == image.title
    ensures i.width == image.width && i.height == image.height
    ensures ValidCode(i.size)
    ensures ReverseImage(i) == Success(image)
  {
    A.Image(image.uri, image.title, image.width, image.height, ForwardSize(image.size))
  }

  /** The image list `forward` builds: each image mapped, in order. */
  function EncodeImages(images: seq<D.Image>): (r: seq<A.Image>)
    ensures |r| == |images|
    ensures forall k :: 0 <= k < |images| ==> r[k] == ForwardImage(images[k])
    ensures AllSizesValid(r)
  {
    if images == [] then []
    else EncodeImages(images[..|images| - 1]) + [ForwardImage(images[|images| - 1])]
  }

  /**
   * The image list `reverse` builds: each image mapped in order; the first image
   * with an invalid size code aborts the whole list.
   */
  function DecodeImages(images: seq<A.Image>): (r: Result<seq<D.Image>, Error>)
    ensures r.Success? <==> AllSizesValid(images)
    ensures r.Success? ==> |r.value| == |images|
    ensures r.Success? ==> forall k :: 0 <= k < |images| ==> ReverseImage(images[k]) == Success(r.value[k])
    ensures r.Failure? ==> exists k :: FirstInvalidSize(images, k) && r.error == InvalidSizeCode(images[k].size)
  {
    if images == [] then Success([])
    else
      var n := |images| - 1;
      assert forall k :: 0 <= k < n ==> images[..n][k] == images[k];
      var init :- DecodeImages(images[..n]);
      var last :- (assert FirstInvalidSize(images, n) <== !ValidCode(images[n].size); ReverseImage(images[n]));
      Success(init + [last])
  }

  // ----------------------------------------------------------
  // Media

  /** The Avro media record `forwardMedia` fills in. */
  function EncodeMedia(media: D.Media): (m: A.Media)
    ensures m.bitrate.Some? <==> media.hasBitrate
    ensures media.hasBitrate ==> m.bitrate == Some(media.bitrate)
    ensures ReversePlayer(m.player) == Success(media.player)
    ensures m.persons == media.persons
    ensures m.title == media.title && m.copyright == media.copyright
    ensures m.uri == media.uri && m.format == media.format
    ensures m.width == media.width && m.height == media.height
    ensures m.duration == media.duration && m.size == media.size
  {
    A.Media(
      media.uri,
      media.title,
      media.width,
      media.height,
      media.format,
      media.duration,
      media.size,
      if media.hasBitrate then Some(media.bitrate) else None,
      media.persons,
      ForwardPlayer(media.player),
      media.copyright)
  }

  /** The domain media record `reverseMedia` builds, or the error it throws. */
  function DecodeMedia(media: A.Media): (r: Result<D.Media, Error>)
    ensures r.Success? <==> ValidCode(media.player)
    ensures r.Failure? ==> r.error == InvalidPlayerCode(media.player)
    ensures r.Success? ==> (r.value.hasBitrate <==> media.bitrate.Some?)
    ensures r.Success? && media.bitrate.Some? ==> r.value.bitrate == media.bitrate.value
    ensures r.Success? ==> D.BitrateNormalized(r.value)
    ensures r.Success? ==> r.value.persons == media.persons
    ensures r.Success? ==> r.value.title == media.title && r.value.copyright == media.copyright
    ensures r.Success? ==> r.value.uri == media.uri && r.value.format == media.format
    ensures r.Success? ==> r.value.width == media.width && r.value.height == media.height
    ensures r.Success? ==> r.value.duration == media.duration && r.value.size == media.size
  {
    var player :- ReversePlayer(media.player);
    Success(D.Media(
      media.uri,
      media.title,
      media.width,
      media.height,
      media.format,
      media.duration,
      media.size,
      if media.bitrate.Some? then media.bitrate.value else 0,
      media.bitrate.Some?,
      media.persons,
      player,
      media.copyright))
  }

  method ForwardMedia(media: D.Media) returns (m: A.Media)
    ensures m == EncodeMedia(media)
  {
    var bitrate: Option<int32> := None;
    if media.hasBitrate {
      bitrate := Some(media.bitrate);
    }
    var persons: seq<string> := [];
    for i := 0 to |media.persons|
      invariant persons == media.persons[..i]
    {
      persons := persons + [media.persons[i]];
    }
    m := A.Media(media.uri, media.title, media.width, media.height, media.format,
                 media.duration, media.size, bitrate, persons,
                 ForwardPlayer(media.player), media.copyright);
  }

  method ReverseMedia(media: A.Media) returns (r: Result<D.Media, Error>)
    ensures r == DecodeMedia(media)
  {
    var persons: seq<string> := [];
    for i := 0 to |media.persons|
      invariant persons == media.persons[..i]
    {
      persons := persons + [media.persons[i]];
    }
    assert persons == media.persons;
    var player :- ReversePlayer(media.player);
    r := Success(D.Media(
      media.uri,
      media.title,
      media.width,
      media.height,
      media.format,
      media.duration,
      media.size,
      if media.bitrate.Some? then media.bitrate.value else 0,
      media.bitrate.Some?,
      persons,
      player,
      media.copyright));
  }

  // ----------------------------------------------------------
  // MediaContent

  /** The Avro record `forward` builds. */
  function EncodeContent(mc: D.MediaContent): (r: A.MediaContent)
    ensures ValidCodes(r)
    ensures |r.images| == |mc.images|
  {
    A.MediaContent(EncodeMedia(mc.media), EncodeImages(mc.images))
  }

  /**
   * The domain record `reverse` builds, or the error it throws: the images are
   * mapped before the media, so an invalid image size code wins over an invalid
   * player code.
   */
  function DecodeContent(mc: A.MediaContent): (r: Result<D.MediaContent, Error>)
    ensures r.Success? <==> ValidCodes(mc)
    ensures r.Success? ==> |r.value.images| == |mc.images| && D.BitrateNormalized(r.value.media)
    ensures r.Failure? && AllSizesValid(mc.images) ==> r.error == InvalidPlayerCode(mc.media.player)
    ensures r.Failure? && !AllSizesValid(mc.images) ==>
              exists k :: FirstInvalidSize(mc.images, k) && r.error == InvalidSizeCode(mc.images[k].size)
  {
    var images :- DecodeImages(mc.images);
    var media :- DecodeMedia(mc.media);
    Success(D.MediaContent(media, images))
  }

  /** Once a prefix of the list fails to decode, the whole list fails with the same error. */
  lemma {:induction false} DecodeImagesPrefixFailure(images: seq<A.Image>, n: nat)
    requires n <= |images|
    requires DecodeImages(images[..n]).Failure?
    ensures DecodeImages(images) == DecodeImages(images[..n])
    decreases |images| - n
  {
    if n < |images| {
      var init := images[..|images| - 1];
      assert init[..n] == images[..n];
      DecodeImagesPrefixFailure(init, n);
    } else {
      assert images[..n] == images;
    }
  }

  method Forward(mc: D.MediaContent) returns (amc: A.MediaContent)
    ensures amc == EncodeContent(mc)
  {
    var images: seq<A.Image> := [];
    for i := 0 to |mc.images|
      invariant images == EncodeImages(mc.images[..i])
    {
      assert mc.images[..i + 1][..i] == mc.images[..i];
      images := images + [ForwardImage(mc.images[i])];
    }
    assert mc.images[..|mc.images|] == mc.images;
    var media := ForwardMedia(mc.media);
    amc := A.MediaContent(media, images);
  }

  method Reverse(mc: A.MediaContent) returns (r: Result<D.MediaContent, Error>)
    ensures r == DecodeContent(mc)
  {
    var images: seq<D.Image> := [];
    for i := 0 to |mc.images|
      invariant DecodeImages(mc.images[..i]) == Success(images)
    {
      assert mc.images[..i + 1][..i] == mc.images[..i];
      var image := ReverseImage(mc.images[i]);
      if image.Failure? {
        DecodeImagesPrefixFailure(mc.images, i + 1);
        return Failure(image.error);
      }
      images := images + [image.value];
    }
    assert mc.images[..|mc.images|] == mc.images;
    var media :- ReverseMedia(mc.media);
    r := Success(D.MediaContent(media, images));
  }

  /**
   * Rebuilds only the media: the image list is always empty, and the Avro images
   * are never looked at, so an invalid image size code cannot make it fail.
   */
  method ShallowReverse(mc: A.MediaContent) returns (r: Result<D.MediaContent, Error>)
    ensures r.Success? <==> ValidCode(mc.media.player)
    ensures r.Failure? ==> r.error == InvalidPlayerCode(mc.media.player)
    ensures r.Success? ==> r.value.images == [] && DecodeMedia(mc.media) == Success(r.value.media)
    ensures DecodeContent(mc).Success? ==> r.Success? && r.value.media == DecodeContent(mc).value.media
  {
    var media :- ReverseMedia(mc.media);
    r := Success(D.MediaContent(media, []));
  }

  /** A fresh output buffer of `size` empty (null) slots. */
  method ResultArray(size: int32) returns (r: Result<array<Option<A.MediaContent>>, Error>)
    ensures r.Success? <==> size >= 0
    ensures r.Failure? ==> r.error == NegativeArraySize(size)
    ensures r.Success? ==> fresh(r.value) && r.value.Length == size as int
    ensures r.Success? ==> forall k :: 0 <= k < r.value.Length ==> r.value[k] == None
  {
    if size < 0 {
      return Failure(NegativeArraySize(size));
    }
    var a := new Option<A.MediaContent>[size as int](_ => None);
    r := Success(a);
  }
}
