/**
 * The `Media` descriptor: what its three constructors store, the probing
 * steps and the metadata loop they run, the title it is listed under, the
 * order it is sorted in, and its two setters.
 *
 * The probing engine (`LibVLC`) is an input: a `Probe` value says what each
 * of its calls returns and which call, if any, throws `LibVlcException`.
 */
module MediaDescriptor {
  import opened Wrappers
  import opened JavaString
  import opened Locator
  import opened MediaMeta

  /** Java `int` and `long`. */
  type Int32 = x: int | -0x8000_0000 <= x < 0x8000_0000
  type Int64 = x: int | -0x8000_0000_0000_0000 <= x < 0x8000_0000_0000_0000

  /** An encoded thumbnail, opaque here. */
  type Bitmap = seq<bv8>

  /** The type tags. `TYPE_ALL` is a filter for callers, never set by a probe. */
  const TYPE_ALL: Int32 := -1
  const TYPE_VIDEO: Int32 := 0
  const TYPE_AUDIO: Int32 := 1

  /** The type a probe assigns: video exactly when the media has a video track. */
  function TypeFor(hasVideoTrack: bool): (t: Int32)
    ensures t == TYPE_VIDEO <==> hasVideoTrack
    ensures t == TYPE_AUDIO <==> !hasVideoTrack
  {
    if hasVideoTrack then TYPE_VIDEO else TYPE_AUDIO
  }

  /** The calls the probing constructor makes, in this order. */
  datatype LibVlcCall = GetInstance | HasVideoTrack | GetLengthFromLocation | ReadMediaMeta
  {
    function Step(): nat
    {
      match this
      case GetInstance => 0
      case HasVideoTrack => 1
      case GetLengthFromLocation => 2
      case ReadMediaMeta => 3
    }
  }

  /** What the probing engine answers for one locator; `failsAt` names the
      call that throws `LibVlcException`, if one does. */
  datatype Probe = Probe(hasVideoTrack: bool, length: Int64, meta: seq<JString>, failsAt: Option<LibVlcCall>)
  {
    /** The call returns, so the statement it is part of takes effect. */
    predicate Returns(call: LibVlcCall)
    {
      failsAt.None? || call.Step() < failsAt.value.Step()
    }

    /** What the constructor demands of the answer it reads. */
    predicate WellFormed()
    {
      Returns(ReadMediaMeta) ==> KeysNonNull(meta)
    }

    /** `mType` after probing: the probed type once `hasVideoTrack`
        returns, the default 0 (`TYPE_VIDEO`) otherwise. */
    function TypeAfter(): Int32
    {
      if Returns(HasVideoTrack) then TypeFor(hasVideoTrack) else TYPE_VIDEO
    }

    /** `mLength` after probing: the probed length, or the default 0. */
    function LengthAfter(): Int64
    {
      if Returns(GetLengthFromLocation) then length else 0
    }

    /** The metadata fields after probing: the array's pairs applied to the
        null defaults, or the defaults when `readMediaMeta` throws. */
    function MetaAfter(getValue: GetValue): Meta
      requires WellFormed()
    {
      if Returns(ReadMediaMeta) then ApplyPairs(NoMeta, Pairs(meta), getValue) else NoMeta
    }
  }

  class Media {
    var title: JString
    var artist: JString
    var genre: JString
    var album: JString

    var location: JString
    var filename: JString
    var time: Int64
    var length: Int64
    var kind: Int32
    var width: Int32
    var height: Int32
    var picture: Option<Bitmap>

    /** The four metadata fields the constructors fill in. */
    function Metadata(): Meta
      reads this`title, this`artist, this`genre, this`album
    {
      Meta(title, artist, genre, album)
    }

    /** `Media(context, MRL, addToDb)`: the display name from the locator,
        then the probe. A failing probe call leaves what was assigned before
        it and the defaults after it: `mType` 0 (`TYPE_VIDEO`), `mLength` 0,
        metadata null. */
    constructor (getValue: GetValue, mrl: string, url: UrlParse, probe: Probe)
      requires probe.WellFormed()
      ensures location == Str(mrl) && filename == Str(DisplayName(url))
      ensures kind == probe.TypeAfter() && length == probe.LengthAfter() && Metadata() == probe.MetaAfter(getValue)
      ensures time == 0 && width == 0 && height == 0 && picture == None
    {
      location := Str(mrl);
      filename := Str(DisplayName(url));
      time, length, kind, width, height := 0, 0, 0, 0, 0;
      picture := None;
      title, artist, genre, album := Null, Null, Null, Null;
      new;
      ProbeWith(getValue, probe);
    }

    /** `Media(context, file)`: as above for the file's locator, then the
        file name without its extension replaces the display name. Java
        throws `StringIndexOutOfBoundsException` for a name without '.'. */
    constructor FromFile(getValue: GetValue, mrl: string, url: UrlParse, probe: Probe, fileName: string)
      requires probe.WellFormed()
      requires '.' in fileName
      ensures location == Str(mrl) && filename == Str(StripExtension(fileName))
      ensures kind == probe.TypeAfter() && length == probe.LengthAfter() && Metadata() == probe.MetaAfter(getValue)
      ensures time == 0 && width == 0 && height == 0 && picture == None
    {
      location := Str(mrl);
      filename := Str(DisplayName(url));
      time, length, kind, width, height := 0, 0, 0, 0, 0;
      picture := None;
      title, artist, genre, album := Null, Null, Null, Null;
      // The probe does not touch mFilename, so replacing the derived name
      // before it leaves the same state as replacing it after.
      filename := Str(StripExtension(fileName));
      new;
      ProbeWith(getValue, probe);
    }

    /** The constructor from persisted fields: everything is stored as
        given, except artist, genre and album, which go through the same
        normalisation as in the probing loop. */
    constructor FromFields(getValue: GetValue, location: JString, filename: JString, time: Int64, length: Int64,
                           kind: Int32, picture: Option<Bitmap>,
                           title: JString, artist: JString, genre: JString, album: JString)
      ensures this.location == location && this.filename == filename
      ensures this.time == time && this.length == length && this.kind == kind && this.picture == picture
      ensures Metadata() == Meta(title, Normalise(Artist, artist, getValue),
                                 Normalise(Genre, genre, getValue), Normalise(Album, album, getValue))
      ensures width == 0 && height == 0
    {
      this.location := location;
      this.filename := filename;
      this.time := time;
      this.length := length;
      this.kind := kind;
      this.picture := picture;
      this.title := title;
      this.artist := getValue(artist, UnknownArtist);
      this.genre := getValue(genre, UnknownGenre);
      this.album := getValue(album, UnknownAlbum);
      width, height := 0, 0;
    }

    /** The `LibVLC` `try` block of the probing constructor, run on the
        default field values: each probe call that returns lets its
        assignment happen; the first one that throws ends the block, and the
        exception is swallowed. */
    method ProbeWith(getValue: GetValue, probe: Probe)
      requires probe.WellFormed()
      requires kind == TYPE_VIDEO && length == 0 && Metadata() == NoMeta
      modifies this`kind, this`length, this`title, this`artist, this`genre, this`album
      ensures kind == probe.TypeAfter() && length == probe.LengthAfter() && Metadata() == probe.MetaAfter(getValue)
    {
      if !probe.Returns(HasVideoTrack) {
        return;
      }
      kind := TypeFor(probe.hasVideoTrack);
      if !probe.Returns(GetLengthFromLocation) {
        return;
      }
      length := probe.length;
      if !probe.Returns(ReadMediaMeta) {
        return;
      }
      ReadMeta(getValue, probe.meta);
    }

    /** The metadata loop: two entries per iteration, key then value. A
        trailing key without a value ends the loop (the Java loop reads past
        the end of the array there instead; see `LoopAsWritten`). */
    method ReadMeta(getValue: GetValue, entries: seq<JString>)
      requires KeysNonNull(entries)
      modifies this`title, this`artist, this`genre, this`album
      ensures Metadata() == ApplyPairs(old(Metadata()), Pairs(entries), getValue)
    {
      var i := 0;
      while i < |entries|
        invariant 0 <= i <= |entries|
        invariant KeysNonNull(entries[i..])
        invariant ApplyPairs(Metadata(), Pairs(entries[i..]), getValue) == ApplyPairs(old(Metadata()), Pairs(entries), getValue)
      {
        var s := entries[i];
        i := i + 1;
        if i == |entries| {
          break;
        }
        var v := entries[i];
        assert entries[i - 1..][2..] == entries[i + 1..];
        if s == Str("title") {
          title := v;
        } else if s == Str("artist") {
          artist := getValue(v, UnknownArtist);
        } else if s == Str("genre") {
          genre := getValue(v, UnknownGenre);
        } else if s == Str("album") {
          album := getValue(v, UnknownAlbum);
        }
        i := i + 1;
      }
    }

    /** `getTitle()`: the title, or the display name when there is none. */
    function GetTitle(): (t: JString)
      reads this
      ensures t != Null <==> title != Null || filename != Null
      ensures title != Null ==> t == title
      ensures title == Null ==> t == filename
    {
      if title != Null then title else filename
    }

    /** `compareTo(another)`: this item's title against the other's
        `getTitle()`, both upper-cased. It dereferences both, so both must
        be non-null. */
    function CompareTo(another: Media): (r: int)
      reads this, another
      requires title != Null && another.GetTitle() != Null
      ensures r == 0 <==> ToUpperCase(title.chars) == ToUpperCase(another.GetTitle().chars)
    {
      JavaString.CompareTo(ToUpperCase(title.chars), ToUpperCase(another.GetTitle().chars))
    }

    /** `setTime(time)`. */
    method SetTime(time: Int64)
      modifies this`time
      ensures this.time == time
    {
      this.time := time;
    }

    /** `setPicture(context, p)`, without the catalog update. */
    method SetPicture(p: Option<Bitmap>)
      modifies this`picture
      ensures picture == p
    {
      picture := p;
    }
  }

  /** Every item compares equal to itself. */
  lemma CompareToReflexive(m: Media)
    requires m.title != Null
    ensures m.CompareTo(m) == 0
  {
  }

  /** Titles that differ only in the case of letters compare equal, and only those. */
  lemma CompareToIgnoresCase(a: Media, b: Media)
    requires a.title != Null && b.GetTitle() != Null
    ensures a.CompareTo(b) == 0 <==>
            |a.title.chars| == |b.GetTitle().chars|
            && forall i :: 0 <= i < |a.title.chars| ==> SameIgnoringCase(a.title.chars[i], b.GetTitle().chars[i])
  {
    UpperCaseEqualIff(a.title.chars, b.GetTitle().chars);
  }

  /** An item sorts before another exactly when its upper-cased title comes
      first, in lexicographic order, before the other's upper-cased
      `getTitle()`. */
  lemma CompareToOrder(a: Media, b: Media)
    requires a.title != Null && b.GetTitle() != Null
    ensures a.CompareTo(b) < 0 <==> LexLess(ToUpperCase(a.title.chars), ToUpperCase(b.GetTitle().chars))
  {
    CompareToIsLexicographic(ToUpperCase(a.title.chars), ToUpperCase(b.GetTitle().chars));
  }

  /** With both titles set, swapping the items negates the comparison. */
  lemma CompareToAntisymmetric(a: Media, b: Media)
    requires a.title != Null && b.title != Null
    ensures a.CompareTo(b) == -b.CompareTo(a)
  {
    JavaString.CompareToAntisymmetric(ToUpperCase(a.title.chars), ToUpperCase(b.title.chars));
  }

  /** With the first two titles set and the third item named by title or
      filename, "sorts before" is transitive. */
  lemma CompareToTransitive(a: Media, b: Media, c: Media)
    requires a.title != Null && b.title != Null && c.GetTitle() != Null
    requires a.CompareTo(b) < 0 && b.CompareTo(c) < 0
    ensures a.CompareTo(c) < 0
  {
    JavaString.CompareToTransitive(ToUpperCase(a.title.chars), ToUpperCase(b.title.chars), ToUpperCase(c.GetTitle().chars));
  }

  /** The metadata array of the scenario below: a title, then an empty artist. */
  const SongMeta: seq<JString> := [Str("title"), Str("Song"), Str("artist"), Str("")]

  /** Read with placeholder normalisation, that array gives the title, the
      artist's placeholder, and no genre or album. */
  lemma SongMetadata(placeholder: Category -> string)
    requires placeholder(UnknownArtist) != ""
    ensures KeysNonNull(SongMeta)
    ensures ApplyPairs(NoMeta, Pairs(SongMeta), PlaceholderGetValue(placeholder))
            == Meta(Str("Song"), Str(placeholder(UnknownArtist)), Null, Null)
  {
    var getValue := PlaceholderGetValue(placeholder);
    assert SongMeta[2..][2..] == [];
    var ps := Pairs(SongMeta);
    assert ps == [("title", Str("Song")), ("artist", Str(""))];
    LastOccurrenceWins(NoMeta, ps, getValue, Title, 0);
    LastOccurrenceWins(NoMeta, ps, getValue, Artist, 1);
    UnnamedFieldUnchanged(NoMeta, ps, getValue, Genre);
    UnnamedFieldUnchanged(NoMeta, ps, getValue, Album);
  }

  /** An audio file with a title and an empty artist, probed without failure. */
  method SongScenario(placeholder: Category -> string)
    requires placeholder(UnknownArtist) != ""
  {
    var getValue := PlaceholderGetValue(placeholder);
    SongMetadata(placeholder);
    var m := new Media(getValue, "http://host.example/path/Song.mp3",
                       Url("/path/Song.mp3", "host.example"), Probe(false, 180000, SongMeta, None));
    DisplayNameExamples();
    assert m.filename == Str("Song.mp3");
    assert m.kind == TYPE_AUDIO && m.length == 180000;
    assert m.title == Str("Song") && m.GetTitle() == Str("Song");
    assert m.artist == Str(placeholder(UnknownArtist));
    assert m.genre == Null;
    m.SetTime(5000);
    assert m.time == 5000 && m.title == Str("Song");
  }
}
