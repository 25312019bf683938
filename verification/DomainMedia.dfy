/**
 * The plain, serialization-agnostic domain records (`data.media.*`).
 * A nullable `String` is an `Option<string>`; a required one is a `string`.
 */
module DomainMedia {
  import opened Wrappers
  import opened Ints

  /** `data.media.Media.Player`, a closed enumeration. */
  datatype Player = Java | Flash

  /** `data.media.Image.Size`, a closed enumeration. */
  datatype Size = Small | Large

  datatype Media = Media(
    uri: string,
    title: Option<string>,
    width: int32,
    height: int32,
    format: string,
    duration: int64,
    size: int64,
    bitrate: int32,
    hasBitrate: bool,
    persons: seq<string>,
    player: Player,
    copyright: Option<string>)

  datatype Image = Image(
    uri: string,
    title: Option<string>,
    width: int32,
    height: int32,
    size: Size)

  datatype MediaContent = MediaContent(media: Media, images: seq<Image>)

  /**
   * A media value whose bitrate field carries no information beyond `hasBitrate`:
   * when there is no bitrate, the value is the default 0.
   */
  predicate BitrateNormalized(m: Media) {
    !m.hasBitrate ==> m.bitrate == 0
  }
}
