/**
 * Laws relating the forward and reverse mappings: round trips in both directions,
 * the bitrate absence rule, null preservation of optional text, and order
 * preservation of the lists.
 */
module TransformerLaws {
  import opened Wrappers
  import opened Ints
  import D = DomainMedia
  import A = AvroMedia
  import opened AvroTransformer

  /** Every code the player decoder accepts is re-encoded to itself. */
  lemma PlayerCodeRoundTrip(code: int32)
    requires ReversePlayer(code).Success?
    ensures ForwardPlayer(ReversePlayer(code).value) == code
  {
  }

  /** Every code the size decoder accepts is re-encoded to itself. */
  lemma SizeCodeRoundTrip(code: int32)
    requires ReverseSize(code).Success?
    ensures ForwardSize(ReverseSize(code).value) == code
  {
  }

  /** Avro image -> domain -> Avro is the identity whenever the reverse step succeeds. */
  lemma ImageCodeRoundTrip(image: A.Image)
    requires ReverseImage(image).Success?
    ensures ForwardImage(ReverseImage(image).value) == image
  {
    SizeCodeRoundTrip(image.size);
  }

  /** Forward then reverse gives back the same images, in the same order. */
  lemma {:induction false} ImagesRoundTrip(images: seq<D.Image>)
    ensures DecodeImages(EncodeImages(images)) == Success(images)
  {
    var r := DecodeImages(EncodeImages(images));
    assert r.value == images by {
      forall k | 0 <= k < |images| ensures r.value[k] == images[k] {
        assert ReverseImage(EncodeImages(images)[k]) == Success(images[k]);
      }
    }
  }

  /** Reverse then forward gives back the same Avro images, in the same order. */
  lemma {:induction false} ImagesCodeRoundTrip(images: seq<A.Image>)
    requires DecodeImages(images).Success?
    ensures EncodeImages(DecodeImages(images).value) == images
  {
    var decoded := DecodeImages(images).value;
    forall k | 0 <= k < |images| ensures EncodeImages(decoded)[k] == images[k] {
      ImageCodeRoundTrip(images[k]);
    }
  }

  /**
   * Forward then reverse gives back the media, except that a bitrate the domain
   * record marks as absent comes back as 0.
   */
  lemma MediaRoundTrip(m: D.Media)
    ensures DecodeMedia(EncodeMedia(m)) == Success(m.(bitrate := if m.hasBitrate then m.bitrate else 0))
  {
  }

  /** For a media record whose absent bitrate is 0, forward then reverse is the identity. */
  lemma NormalizedMediaRoundTrip(m: D.Media)
    requires D.BitrateNormalized(m)
    ensures DecodeMedia(EncodeMedia(m)) == Success(m)
  {
    MediaRoundTrip(m);
  }

  /** Reverse then forward gives back the Avro media record whenever the reverse step succeeds. */
  lemma MediaCodeRoundTrip(m: A.Media)
    requires DecodeMedia(m).Success?
    ensures EncodeMedia(DecodeMedia(m).value) == m
  {
    PlayerCodeRoundTrip(m.player);
  }

  /** `reverse(forward(mc)) == mc` for every record whose absent bitrate is 0. */
  lemma ContentRoundTrip(mc: D.MediaContent)
    requires D.BitrateNormalized(mc.media)
    ensures DecodeContent(EncodeContent(mc)) == Success(mc)
  {
    ImagesRoundTrip(mc.images);
    NormalizedMediaRoundTrip(mc.media);
  }

  /** `forward(reverse(mc)) == mc` whenever `reverse` succeeds. */
  lemma ContentCodeRoundTrip(mc: A.MediaContent)
    requires DecodeContent(mc).Success?
    ensures EncodeContent(DecodeContent(mc).value) == mc
  {
    ImagesCodeRoundTrip(mc.images);
    MediaCodeRoundTrip(mc.media);
  }

  /** A domain record without a bitrate is forwarded with the slot absent, never 0. */
  lemma ForwardBitrateAbsent(mc: D.MediaContent)
    requires !mc.media.hasBitrate
    ensures EncodeContent(mc).media.bitrate == None
  {
  }

  /** An Avro record without a bitrate reverses to `hasBitrate == false` and `bitrate == 0`. */
  lemma ReverseBitrateAbsent(mc: A.MediaContent)
    requires DecodeContent(mc).Success? && mc.media.bitrate.None?
    ensures !DecodeContent(mc).value.media.hasBitrate && DecodeContent(mc).value.media.bitrate == 0
  {
  }

  /** Null `title`/`copyright` values stay null through forward then reverse, and present ones are unchanged. */
  lemma OptionalTextRoundTrip(mc: D.MediaContent)
    ensures var r := DecodeContent(EncodeContent(mc));
      && r.Success?
      && r.value.media.title == mc.media.title
      && r.value.media.copyright == mc.media.copyright
      && |r.value.images| == |mc.images|
      && forall k :: 0 <= k < |mc.images| ==> r.value.images[k].title == mc.images[k].title
  {
    ImagesRoundTrip(mc.images);
    MediaRoundTrip(mc.media);
  }

  /** Reverse fails when the player code or any image size code is outside {1, 2}. */
  lemma ReverseRejectsInvalidCodes(mc: A.MediaContent, k: nat)
    requires (k < |mc.images| && !ValidCode(mc.images[k].size)) || !ValidCode(mc.media.player)
    ensures DecodeContent(mc).Failure?
  {
  }

  /** A media record without bitrate, title or copyright forwards to the expected Avro record and reverses back exactly. */
  lemma ExampleMedia()
    ensures var m := D.Media("http://a", None, 1, 2, "f", 3, 4, 0, false, ["x", "y"], D.Flash, None);
      var a := A.Media("http://a", None, 1, 2, "f", 3, 4, None, ["x", "y"], 2, None);
      EncodeMedia(m) == a && DecodeMedia(a) == Success(m)
  {
  }
}
