# Media descriptor of VLC for Android, in Dafny

This project models `org.videolan.vlc.Media`. That class is VLC for Android's
descriptor of one playable audio or video resource. The model covers how
the descriptor is built and normalised:

- how the display name (`mFilename`) is derived from the media resource
  locator (MRL);
- how the type is classified as `TYPE_VIDEO` or `TYPE_AUDIO`;
- how the probing engine's flat `[key, value, key, value, …]` metadata array
  is read into `mTitle`, `mArtist`, `mGenre` and `mAlbum`;
- the `getTitle` fallback, the case-insensitive `compareTo`, and the
  `setTime` and `setPicture` setters.

Files and modules:

- `Wrappers.dfy`: `Option` and `Result`.
- `JavaString.dfy`: the parts of `java.lang.String` the class uses. It models
  nullable references (`JString`), `lastIndexOf`, `toUpperCase` and the
  lexicographic `compareTo`. It proves that `compareTo` is zero exactly on
  equal strings, negative exactly when the first string comes first in
  lexicographic order, antisymmetric and transitive.
- `Locator.dfy`: display-name derivation from what `new URL(mrl)` yields,
  and the extension stripping of the file constructor.
- `MediaMeta.dfy`: the metadata array as a specification. It covers the
  pairs the loop reads, what each pair does to the fields, the loop as the
  Java code runs it on arrays whose paired keys are non-null (including its
  out-of-bounds read), and the
  placeholder normalisation.
- `MediaDescriptor.dfy`: the class `Media`. Its fields are the `m*` members.
  It has the three constructors, the probing steps, the metadata loop as a
  `while` loop, `GetTitle`, `CompareTo`, `SetTime` and `SetPicture`.

Collaborators outside the class are inputs:

- `UrlParse` is the result of `new URL(mrl)`: `Malformed`, or the URL's
  `getFile()` and `getHost()`.
- `Probe` gives what each `LibVLC` call returns, and which call (if any)
  throws `LibVlcException`.
- `GetValue` is `Util.getValue` with the caller's `Context` already supplied.

Where the evidently intended behaviour and the code disagree, the model
mostly follows the code:

- When `getInstance` or `hasVideoTrack` throws, `mType` keeps its Java
  default of 0 (`TYPE_VIDEO`), not audio. When a later call throws, it
  keeps the probed type.
- Artist, genre and album stay `null` when no pair names them. They are not
  replaced by a placeholder.
- `compareTo` reads the receiver's `mTitle` directly and the other item's
  `getTitle()`. It is therefore defined only when the receiver has a title.
  Antisymmetry holds when both items have titles.

One exception: in Java, a metadata array of odd length makes the probing
constructor throw `ArrayIndexOutOfBoundsException`, which escapes it. The
class `Media` does not follow the code there. Its loop (`ReadMeta`) is the
corrected one named in "## Findings": it ignores the trailing key and applies
every preceding pair. The loop as written is `MediaMeta.LoopAsWritten`.

## Model

| member | source | states |
|---|---|---|
| `JavaString.LastIndexOf` | vlc-android/src/org/videolan/vlc/Media.java:109 | the result is -1 exactly when the character does not occur; otherwise the character is at the result and nowhere after it |
| `JavaString.CompareTo` | vlc-android/src/org/videolan/vlc/Media.java:186-187 | `String.compareTo` is zero exactly when the two strings are equal |
| `JavaString.CompareToIsLexicographic` | vlc-android/src/org/videolan/vlc/Media.java:186-187 | `String.compareTo` is negative exactly when the first string is a proper prefix of the second, or is smaller at the first position where they differ |
| `JavaString.ToUpperCase` | vlc-android/src/org/videolan/vlc/Media.java:186-187 | the upper case has the same length, agrees with the string position by position up to the case of letters, and has no lower-case ASCII letter |
| `JavaString.CompareToAntisymmetric` | vlc-android/src/org/videolan/vlc/Media.java:186-187 | swapping the operands of `String.compareTo` negates the result |
| `JavaString.CompareToTransitive` | vlc-android/src/org/videolan/vlc/Media.java:186-187 | if a compares below b and b below c, then a compares below c |
| `JavaString.UpperCaseEqualIff` | vlc-android/src/org/videolan/vlc/Media.java:186-187 | two strings have the same upper case exactly when they have the same length and agree position by position up to the case of letters |
| `Locator.Leaf` | vlc-android/src/org/videolan/vlc/Media.java:109 | the text after the last '/' of the URL's file part contains no '/' |
| `Locator.LeafIsSuffix` | vlc-android/src/org/videolan/vlc/Media.java:109 | the leaf is a suffix of the file part, and either is all of it or follows a '/' |
| `Locator.LeafIsUnique` | vlc-android/src/org/videolan/vlc/Media.java:109 | any '/'-free suffix that is all of the file part or follows a '/' is the leaf |
| `Locator.DisplayName` | vlc-android/src/org/videolan/vlc/Media.java:107-116 | the display name: the URL's leaf, the host when the leaf is empty, "" for a malformed locator; its cases are stated by `Locator.DisplayNameCases` |
| `Locator.DisplayNameCases` | vlc-android/src/org/videolan/vlc/Media.java:107-116 | a malformed locator gives ""; an empty file part or one ending in '/' gives the host; any other file part gives its non-empty leaf |
| `Locator.DisplayNameExamples` | vlc-android/src/org/videolan/vlc/Media.java:107-116 | `/path/Song.mp3` on `host.example` is named `Song.mp3`; `/` on `host.example` is named `host.example` |
| `Locator.StripExtension` | vlc-android/src/org/videolan/vlc/Media.java:164 | for a name with a '.', the result is the prefix of the name before its last '.' |
| `MediaMeta.FieldNamed` | vlc-android/src/org/videolan/vlc/Media.java:131-143 | a key selects a field exactly when it is that field's key ("title", "artist", "genre", "album"); every other key selects none |
| `MediaMeta.Normalise` | vlc-android/src/org/videolan/vlc/Media.java:131-141 | what a field stores for a value: the title verbatim, artist, genre and album through `getValue` with their own placeholder; its properties are stated by `MediaMeta.PlaceholderNormalisation` |
| `MediaMeta.Pairs` | vlc-android/src/org/videolan/vlc/Media.java:126-129 | a metadata array of n entries holds n / 2 key/value pairs |
| `MediaMeta.PairAt` | vlc-android/src/org/videolan/vlc/Media.java:126-129 | pair p consists of entries 2p (the key) and 2p + 1 (the value), so pairs are taken in order and each entry is used once |
| `MediaMeta.DanglingKeyIgnored` | vlc-android/src/org/videolan/vlc/Media.java:127-129 | a trailing key without a value adds no pair |
| `MediaMeta.ApplyPair` | vlc-android/src/org/videolan/vlc/Media.java:131-143 | one pair sets the field its key names to the normalised value (title verbatim, the others through `getValue` with their own placeholder) and leaves every other field unchanged; an unknown key changes nothing |
| `MediaMeta.ApplyPairs` | vlc-android/src/org/videolan/vlc/Media.java:126-144 | the loop as a fold: the pairs applied one after the other, first to last; its properties are stated by `MediaMeta.ApplyPairsAppend`, `MediaMeta.UnnamedFieldUnchanged` and `MediaMeta.LastOccurrenceWins` |
| `MediaMeta.ApplyPairsAppend` | vlc-android/src/org/videolan/vlc/Media.java:126-144 | pairs are applied in array order: two runs of pairs act as the first run followed by the second |
| `MediaMeta.UnnamedFieldUnchanged` | vlc-android/src/org/videolan/vlc/Media.java:131-143 | a field that no pair names keeps the value it had before the loop |
| `MediaMeta.LastOccurrenceWins` | vlc-android/src/org/videolan/vlc/Media.java:126-143 | a field ends up with the normalised value of the last pair that names it |
| `MediaMeta.LoopAsWritten` | vlc-android/src/org/videolan/vlc/Media.java:126-144 | the Java loop step by step, on arrays whose paired keys are non-null, throwing `ArrayIndexOutOfBoundsException` (with the index) when it reads a value past the end |
| `MediaMeta.LoopAsWrittenOutcome` | vlc-android/src/org/videolan/vlc/Media.java:127-129 | the Java loop applies every pair of an even-length array, and throws at index `array.length` for an odd-length one |
| `MediaMeta.OddArrayThrows` | vlc-android/src/org/videolan/vlc/Media.java:127-129 | `["title", "Song", "artist"]` makes the Java loop throw at index 3 |
| `MediaDescriptor.SongMetadata` | vlc-android/src/org/videolan/vlc/Media.java:126-143 | with placeholder normalisation, `["title", "Song", "artist", ""]` gives the title "Song", the artist's placeholder, and null genre and album |
| `MediaMeta.PlaceholderNormalisation` | vlc-android/src/org/videolan/vlc/Media.java:134-141 | with a `getValue` that replaces a null or empty value by a non-empty placeholder, normalising twice equals normalising once, and artist, genre and album are never stored null or empty |
| `MediaMeta.NormalisedFieldsNonEmpty` | vlc-android/src/org/videolan/vlc/Media.java:134-141 | with that `getValue`, after the loop each of artist, genre and album is either untouched or holds a non-empty string |
| `MediaDescriptor.TypeFor` | vlc-android/src/org/videolan/vlc/Media.java:121 | the type is `TYPE_VIDEO` (0) exactly when the probe reports a video track, and `TYPE_AUDIO` (1) otherwise |
| `MediaDescriptor.Probe.TypeAfter` | vlc-android/src/org/videolan/vlc/Media.java:94 | `mType` after probing: the probed type once `hasVideoTrack` returns, the Java default 0 (`TYPE_VIDEO`) when it or `getInstance` throws |
| `MediaDescriptor.Probe.LengthAfter` | vlc-android/src/org/videolan/vlc/Media.java:93 | `mLength` after probing: the probed length once `getLengthFromLocation` returns, the initial 0 otherwise |
| `MediaDescriptor.Probe.MetaAfter` | vlc-android/src/org/videolan/vlc/Media.java:118-147 | the metadata fields after probing: the array's pairs applied to the null defaults once `readMediaMeta` returns, all null otherwise |
| `MediaDescriptor.Media.constructor` | vlc-android/src/org/videolan/vlc/Media.java:105-154 | location is the MRL and the filename is its display name. When a probe call throws, fields set before it keep their values and the rest keep the defaults: type 0, length 0, metadata null. Otherwise the metadata is the result of applying the array's pairs |
| `MediaDescriptor.Media.FromFile` | vlc-android/src/org/videolan/vlc/Media.java:162-165 | as the probing constructor, except that the filename is the file name without its extension |
| `MediaDescriptor.Media.FromFields` | vlc-android/src/org/videolan/vlc/Media.java:167-180 | every field is stored as given, except artist, genre and album, which get the same normalisation as in the metadata loop |
| `MediaDescriptor.Media.ProbeWith` | vlc-android/src/org/videolan/vlc/Media.java:118-147 | each probe call that returns lets its assignment happen; the first one that throws stops the rest, and the exception does not escape |
| `MediaDescriptor.Media.ReadMeta` | vlc-android/src/org/videolan/vlc/Media.java:126-144 | the loop leaves the metadata fields equal to their old values with the array's pairs applied |
| `MediaDescriptor.Media.GetTitle` | vlc-android/src/org/videolan/vlc/Media.java:239-244 | the title when it is non-null, the filename otherwise; non-null exactly when one of the two is |
| `MediaDescriptor.Media.CompareTo` | vlc-android/src/org/videolan/vlc/Media.java:185-188 | defined when the receiver's title and the other item's `getTitle()` are non-null; zero exactly when their upper cases are equal |
| `MediaDescriptor.CompareToReflexive` | vlc-android/src/org/videolan/vlc/Media.java:185-188 | an item with a title compares equal to itself |
| `MediaDescriptor.CompareToIgnoresCase` | vlc-android/src/org/videolan/vlc/Media.java:185-188 | two items compare equal exactly when their titles differ at most in the case of letters |
| `MediaDescriptor.CompareToOrder` | vlc-android/src/org/videolan/vlc/Media.java:185-188 | an item sorts before another exactly when its upper-cased title comes first, in lexicographic order, before the other's upper-cased `getTitle()` |
| `MediaDescriptor.CompareToAntisymmetric` | vlc-android/src/org/videolan/vlc/Media.java:185-188 | with both titles set, swapping the two items negates the comparison |
| `MediaDescriptor.CompareToTransitive` | vlc-android/src/org/videolan/vlc/Media.java:185-188 | when the first two items have titles and the third has a title or a filename, "sorts before" is transitive |
| `MediaDescriptor.Media.SetTime` | vlc-android/src/org/videolan/vlc/Media.java:206-208 | sets the playback time and changes no other field |
| `MediaDescriptor.Media.SetPicture` | vlc-android/src/org/videolan/vlc/Media.java:230-237 | sets the picture and changes no other field |

## Findings

| source | as written | input that shows it | evidently intended | confidence | as-written member | corrected member |
|---|---|---|---|---|---|---|
| vlc-android/src/org/videolan/vlc/Media.java:127-129 | the loop reads the value `array[i]` right after `i++`, without re-checking the bound. A trailing key therefore throws `ArrayIndexOutOfBoundsException`, which is not a `LibVlcException`. It escapes the constructor, so no descriptor is built (`MediaMeta.OddArrayThrows`) | a metadata array `["title", "Song", "artist"]` | a trailing key without a value is ignored, and all preceding pairs are applied (`MediaMeta.DanglingKeyIgnored`). On even-length arrays this is exactly what the code does (`MediaMeta.LoopAsWrittenOutcome`) | not executed; medium, because the probing engine may never return an odd-length array | `MediaMeta.LoopAsWritten` | `MediaDescriptor.Media.ReadMeta` |

## Left out

- The `EXTENTIONS` and `FOLDER_BLACKLIST` sets (Media.java:36-68) are static configuration data with no behaviour.
- `java.net.URL` parsing is library code. Its outcome (malformed, or file part and host) is an input.
- The `LibVLC` probe calls are native code. Their answers are the `Probe` input. This includes which call throws `LibVlcException`.
- `Util.getValue` is not part of this model. It is the `getValue` parameter. `MediaMeta.PlaceholderGetValue` gives the behaviour assumed of it (null or empty becomes the placeholder). The normalisation lemmas are proved for that behaviour.
- `Util.PathToURI` and `File.getName` are not part of this model. The file constructor takes the resulting MRL, its URL parse and the file name as inputs.
- `DatabaseManager` is not modelled: the `addToDb` insertion in the probing constructor, the insertion by the file constructor, and the catalog update in `setPicture`. These are persistence side effects. `SetPicture` models only the field assignment.
- The `Context` argument and `Log` and `printStackTrace` calls are framework plumbing with no effect on the fields. The `Context` matters only through `getValue`.
- The fields `mCopyright`, `mTrackNumber`, `mDescription`, `mRating`, `mDate`, `mSettings`, `mNowPlaying`, `mPublisher`, `mEncodedBy` and `mTrackID` are left out with their getters. Nothing in the class assigns them, so they are always `null`.
- The plain getters are left out: their values are the class's fields. The empty `updateMeta` is also left out.
- `MediaDescriptor.Media.CompareTo`: upper-cases ASCII letters only. Java's `toUpperCase` is locale- and Unicode-aware. It also requires the receiver's title and the other item's `getTitle()` to be non-null, where Java throws `NullPointerException` (Media.java:186-187).
- `JavaString.ToUpperCase`: upper-cases the ASCII letters 'a' to 'z' only. Java's `toUpperCase` also maps other letters and is locale-aware.
- `MediaMeta.LoopAsWritten`: like the constructor below, requires the paired keys to be non-null, so it does not model the `NullPointerException` that Java throws at `s.equals` (Media.java:131) on a null key.
- `MediaDescriptor.Media.constructor`: requires the keys of the metadata pairs to be non-null. Java would throw `NullPointerException` on a null key, and the probing engine supplies constant keys. The MRL is a non-null string.
- `MediaDescriptor.Media.constructor`: handles a metadata array of odd length as corrected. It ignores the trailing key, where the Java code throws `ArrayIndexOutOfBoundsException` out of the constructor (see "## Findings" and `MediaMeta.LoopAsWritten`).
- Two `NullPointerException` paths of the probing constructor are not modelled. One is a `null` array from `readMediaMeta`, dereferenced at `array.length` (Media.java:127). The other is a `null` boxed `addToDb`, unboxed at `if (addToDb)` (Media.java:149). The `Probe` input always carries an array, and `addToDb` only drives the persistence that is left out.
- `JavaString.CompareTo`: compares Unicode code points, where Java's `String.compareTo` compares UTF-16 code units. The two orders differ only between a character above U+FFFF (a surrogate pair in Java) and one in U+E000 to U+FFFF.
- `MediaDescriptor.Media.FromFile`: requires a '.' in the file name. Java throws `StringIndexOutOfBoundsException` there, after the probing constructor has run.
- `long` and `int` fields are ranged integers. No arithmetic is done on them, so there is no wrap-around to model.
