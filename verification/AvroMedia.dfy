/**
 * The Avro-generated records (`serializers.avro.media.*`): a nullable `bitrate`,
 * enumerations stored as integer codes, and Avro arrays as sequences.
 */
module AvroMedia {
  import opened Wrappers
  import opened Ints

  datatype Media = Media(
    uri: string,
    title: Option<string>,
    width: int32,
    height: int32,
    format: string,
    duration: int64,
    size: int64,
    bitrate: Option<int32>,
    persons: seq<string>,
    player: int32,
    copyright: Option<string>)

  datatype Image = Image(
    uri: string,
    title: Option<string>,
    width: int32,
    height: int32,
    size: int32)

  datatype MediaContent = MediaContent(media: Media, images: seq<Image>)
}
