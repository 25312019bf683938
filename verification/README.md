# Avro transformer model

A Dafny model of `AvroTransformer`, the two-way mapper between the plain domain
records of the media benchmark (`data.media.MediaContent`, `Media`, `Image`) and the
Avro-generated records (`serializers.avro.media.*`). The mapper is used to compare
what an Avro codec produced with the same logical data as plain objects.

- `Wrappers.dfy`: `Option` (a nullable reference) and a failure-compatible `Result`.
- `Ints.dfy`: Java `int` and `long` as the newtypes `int32` and `int64`.
- `DomainMedia.dfy`: the domain records, the closed enumerations `Player` and `Size`,
  and `BitrateNormalized`: an absent bitrate is stored as 0.
- `AvroMedia.dfy`: the Avro records: nullable `bitrate`, `title` and `copyright`,
  and integer codes for `player` and image `size`.
- `AvroTransformer.dfy`: the transformer. The enum codecs and the image mappers are
  functions. `forward`, `forwardMedia`, `reverse` and `reverseMedia` build lists by
  appending in a loop, so they are methods. Each is proved equal to a specification
  function (`EncodeContent`, `EncodeMedia`, `DecodeContent`, `DecodeMedia`).
  The `AssertionError` of the decoders is a `Failure` carrying the offending code.
- `TransformerLaws.dfy`: the laws. Round trips hold in both directions. The bitrate
  absence rule holds, null text stays null, and lists keep their order.

`title` and `copyright` are copied unchanged in both directions. A null stays null,
and an empty string stays an empty string; it never becomes an absent value.

## Model

| member | source | states |
|---|---|---|
| AvroTransformer.ForwardPlayer | tpc/src/serializers/AvroTransformer.java:68-75 | the code is 1 or 2 and decodes back to the same player |
| AvroTransformer.ReversePlayer | tpc/src/serializers/AvroTransformer.java:135-142 | succeeds exactly on codes 1 and 2, with 1 giving JAVA; any other code fails with that code and no default |
| AvroTransformer.ForwardSize | tpc/src/serializers/AvroTransformer.java:88-95 | the code is 1 or 2 and decodes back to the same size |
| AvroTransformer.ReverseSize | tpc/src/serializers/AvroTransformer.java:154-161 | succeeds exactly on codes 1 and 2, with 1 giving SMALL; any other code fails with that code and no default |
| AvroTransformer.ForwardImage | tpc/src/serializers/AvroTransformer.java:77-86 | uri, title (null as null), width and height are copied unchanged; the size code is valid and reversing the result gives back the same image |
| AvroTransformer.ReverseImage | tpc/src/serializers/AvroTransformer.java:144-152 | fails exactly when the size code is invalid, with that code; otherwise uri, title (null as null), width and height are copied unchanged |
| AvroTransformer.EncodeImages | tpc/src/serializers/AvroTransformer.java:32-35 | the Avro image list has the same length, and element k is the forward image of element k |
| AvroTransformer.DecodeImages | tpc/src/serializers/AvroTransformer.java:102-106 | succeeds exactly when every size code is valid, keeping length and order element by element; otherwise fails with the code of the first invalid image |
| AvroTransformer.DecodeImagesPrefixFailure | tpc/src/serializers/AvroTransformer.java:104-106 | once an image fails, the images after it cannot change the outcome of the loop |
| AvroTransformer.EncodeMedia | tpc/src/serializers/AvroTransformer.java:43-66 | the bitrate slot is filled exactly when `hasBitrate` is set, then with the bitrate; the player code decodes back to the player; persons are copied in order; title and copyright pass through unchanged, null as null; the other scalar fields are copied |
| AvroTransformer.DecodeMedia | tpc/src/serializers/AvroTransformer.java:111-133 | fails exactly on an invalid player code; `hasBitrate` is set exactly when the Avro bitrate is present, which it then copies; an absent bitrate gives 0; persons keep their order; title and copyright are kept, null as null; the other scalar fields are copied |
| AvroTransformer.ForwardMedia | tpc/src/serializers/AvroTransformer.java:43-66 | the record built field by field, with the persons copied in a loop, equals `EncodeMedia` |
| AvroTransformer.ReverseMedia | tpc/src/serializers/AvroTransformer.java:111-133 | the persons loop and the constructor call give `DecodeMedia`, its error included |
| AvroTransformer.EncodeContent | tpc/src/serializers/AvroTransformer.java:30-41 | every enumeration code produced is 1 or 2, and the image count is kept |
| AvroTransformer.DecodeContent | tpc/src/serializers/AvroTransformer.java:100-109 | succeeds exactly when every code is valid, keeping the image count and giving a normalized bitrate; an invalid image code is reported before an invalid player code |
| AvroTransformer.Forward | tpc/src/serializers/AvroTransformer.java:30-41 | the image loop followed by `forwardMedia` yields `EncodeContent` |
| AvroTransformer.Reverse | tpc/src/serializers/AvroTransformer.java:100-109 | the image loop, stopping at the first failure, followed by `reverseMedia` yields `DecodeContent` |
| AvroTransformer.ShallowReverse | tpc/src/serializers/AvroTransformer.java:163-166 | the image list is empty and the images are never decoded; it fails only on the player code; its media equals that of `reverse` whenever `reverse` succeeds |
| AvroTransformer.ResultArray | tpc/src/serializers/AvroTransformer.java:25 | a fresh array of exactly `size` null slots; a negative size fails |
| TransformerLaws.PlayerCodeRoundTrip | tpc/src/serializers/AvroTransformer.java:68-75 | every accepted player code is re-encoded to itself |
| TransformerLaws.SizeCodeRoundTrip | tpc/src/serializers/AvroTransformer.java:88-95 | every accepted size code is re-encoded to itself |
| TransformerLaws.ImageCodeRoundTrip | tpc/src/serializers/AvroTransformer.java:77-86 | an Avro image that reverses successfully forwards back to itself |
| TransformerLaws.ImagesRoundTrip | tpc/src/serializers/AvroTransformer.java:32-35 | forward then reverse gives back the same image list, in order |
| TransformerLaws.ImagesCodeRoundTrip | tpc/src/serializers/AvroTransformer.java:102-106 | reverse then forward gives back the same Avro image list, in order |
| TransformerLaws.MediaRoundTrip | tpc/src/serializers/AvroTransformer.java:54 | forward then reverse gives back the media, with an absent bitrate reset to 0 |
| TransformerLaws.NormalizedMediaRoundTrip | tpc/src/serializers/AvroTransformer.java:127-128 | forward then reverse is the identity on media whose absent bitrate is 0 |
| TransformerLaws.MediaCodeRoundTrip | tpc/src/serializers/AvroTransformer.java:119-132 | an Avro media that reverses successfully forwards back to itself |
| TransformerLaws.ContentRoundTrip | tpc/src/serializers/AvroTransformer.java:100-109 | `reverse(forward(mc)) == mc` whenever an absent bitrate is 0 |
| TransformerLaws.ContentCodeRoundTrip | tpc/src/serializers/AvroTransformer.java:30-41 | `forward(reverse(mc)) == mc` whenever `reverse` succeeds |
| TransformerLaws.ForwardBitrateAbsent | tpc/src/serializers/AvroTransformer.java:54 | without `hasBitrate` the Avro bitrate is absent, not 0 |
| TransformerLaws.ReverseBitrateAbsent | tpc/src/serializers/AvroTransformer.java:127-128 | an absent Avro bitrate reverses to `hasBitrate == false` and `bitrate == 0` |
| TransformerLaws.OptionalTextRoundTrip | tpc/src/serializers/AvroTransformer.java:121-131 | media title and copyright and image titles survive forward then reverse unchanged, null included |
| TransformerLaws.ReverseRejectsInvalidCodes | tpc/src/serializers/AvroTransformer.java:135-161 | reverse fails when the player code or any image size code is outside {1, 2} |
| TransformerLaws.ExampleMedia | tpc/src/serializers/AvroTransformer.java:43-66 | a record without bitrate, title or copyright forwards to the expected Avro record and reverses back exactly |

## Left out

- The Avro runtime containers (`GenericData.Array`, `ArrayList`) and the schema descriptors `Avro.Media.sImages` and `Avro.Media.sPersons` are plain sequences. The capacity argument only sizes the container.
- `CharSequence` and `String` are both `string`: `toString()` returns the same text.
- Null inputs are not modelled: the datatypes make `uri`, `format`, the lists and their elements, `mc` itself, `mc.media` and the `player`/`size` enum values non-null, so the NullPointerExceptions these would raise (in `reverseMedia`/`reverseImage`, at the field reads of `forwardMedia`/`reverseMedia`, and in the `switch` of `forwardPlayer`/`forwardSize`) cannot arise.
- The `default: throw` branches of `forwardPlayer` and `forwardSize` cannot be reached with a closed Dafny datatype.
- The Avro records are mutable objects that `forwardMedia`/`forwardImage` fill in field by field. They are modelled as immutable values, because each field is written once on a fresh object that is returned without being shared.
- The `MediaTransformer` base class and the domain constructors are not part of this model; they are plain record construction.
- The Avro byte-level encoder and decoder and the benchmark harness are not part of this model.
