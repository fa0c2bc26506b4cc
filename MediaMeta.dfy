/**
 * The metadata a probed media item takes from the flat `String[]` that the
 * probing engine returns, `[k0, v0, k1, v1, ...]`: which pairs are read, in
 * which order, and what each recognised key does to the four metadata fields.
 *
 * `Util.getValue(context, value, id)` is not part of this model: it is a
 * parameter of type `GetValue`. `PlaceholderGetValue` is the behaviour
 * assumed of it (a null or empty value becomes the category's
 * placeholder), and the lemmas at the end hold for that one.
 */
module MediaMeta {
  import opened Wrappers
  import opened JavaString

  /** The string resources `R.string.unknown_artist`, `unknown_genre`, `unknown_album`. */
  datatype Category = UnknownArtist | UnknownGenre | UnknownAlbum

  /** `Util.getValue` with the caller's `Context` already supplied. */
  type GetValue = (JString, Category) -> JString

  /** The metadata fields the probing constructor fills in. */
  datatype Field = Title | Artist | Genre | Album

  /** The key that names a field in the probing engine's array. */
  function KeyOf(f: Field): string
  {
    match f
    case Title => "title"
    case Artist => "artist"
    case Genre => "genre"
    case Album => "album"
  }

  /** The field a key names, if any: every other key is ignored. */
  function FieldNamed(key: string): (r: Option<Field>)
    ensures forall f :: r == Some(f) <==> KeyOf(f) == key
  {
    if key == "title" then Some(Title)
    else if key == "artist" then Some(Artist)
    else if key == "genre" then Some(Genre)
    else if key == "album" then Some(Album)
    else None
  }

  /** What a field stores for a value: the title verbatim, the other three
      through `getValue` with their own placeholder. */
  function Normalise(f: Field, v: JString, getValue: GetValue): JString
  {
    match f
    case Title => v
    case Artist => getValue(v, UnknownArtist)
    case Genre => getValue(v, UnknownGenre)
    case Album => getValue(v, UnknownAlbum)
  }

  /** `mTitle`, `mArtist`, `mGenre`, `mAlbum`. */
  datatype Meta = Meta(title: JString, artist: JString, genre: JString, album: JString)
  {
    function Get(f: Field): JString
    {
      match f
      case Title => title
      case Artist => artist
      case Genre => genre
      case Album => album
    }

    function Set(f: Field, v: JString): (m: Meta)
      ensures m.Get(f) == v
      ensures forall g :: g != f ==> m.Get(g) == Get(g)
    {
      match f
      case Title => this.(title := v)
      case Artist => this.(artist := v)
      case Genre => this.(genre := v)
      case Album => this.(album := v)
    }
  }

  /** The fields before anything is read: all `null`. */
  const NoMeta := Meta(Null, Null, Null, Null)

  /** The loop calls `s.equals(...)` on every key it pairs with a value, so
      those keys must not be `null`. A trailing key without a value is never
      compared. */
  predicate KeysNonNull(a: seq<JString>)
    decreases |a|
  {
    |a| < 2 || (a[0].Str? && KeysNonNull(a[2..]))
  }

  /** A key with its value. */
  type Pair = (string, JString)

  /** The pairs of the array, `(a[0], a[1]), (a[2], a[3]), ...`; a trailing
      key without a value forms no pair. */
  function Pairs(a: seq<JString>): (ps: seq<Pair>)
    requires KeysNonNull(a)
    ensures |ps| == |a| / 2
    decreases |a|
  {
    if |a| < 2 then [] else [(a[0].chars, a[1])] + Pairs(a[2..])
  }

  /** Pair `p` is made of the array's entries `2p` and `2p + 1`. */
  lemma {:induction false} PairAt(a: seq<JString>, p: nat)
    requires KeysNonNull(a)
    requires p < |a| / 2
    ensures Str(Pairs(a)[p].0) == a[2 * p] && Pairs(a)[p].1 == a[2 * p + 1]
    decreases p
  {
    if p > 0 {
      PairAt(a[2..], p - 1);
    }
  }

  /** A trailing key without a value adds no pair. */
  lemma {:induction false} DanglingKeyIgnored(a: seq<JString>, key: JString)
    requires |a| % 2 == 0 && KeysNonNull(a)
    ensures KeysNonNull(a + [key]) && Pairs(a + [key]) == Pairs(a)
    decreases |a|
  {
    if |a| >= 2 {
      assert (a + [key])[2..] == a[2..] + [key];
      DanglingKeyIgnored(a[2..], key);
    }
  }

  /** One iteration of the loop: the field the key names takes the
      normalised value; an unrecognised key changes nothing. */
  function ApplyPair(m: Meta, pair: Pair, getValue: GetValue): (r: Meta)
    ensures forall f :: r.Get(f) == if pair.0 == KeyOf(f) then Normalise(f, pair.1, getValue) else m.Get(f)
  {
    match FieldNamed(pair.0)
    case None => m
    case Some(f) => m.Set(f, Normalise(f, pair.1, getValue))
  }

  /** The whole loop: the pairs applied one after the other, first to last. */
  function ApplyPairs(m: Meta, ps: seq<Pair>, getValue: GetValue): Meta
    decreases |ps|
  {
    if ps == [] then m else ApplyPairs(ApplyPair(m, ps[0], getValue), ps[1..], getValue)
  }

  /** Applying two runs of pairs is applying the first, then the second. */
  lemma {:induction false} ApplyPairsAppend(m: Meta, ps: seq<Pair>, qs: seq<Pair>, getValue: GetValue)
    ensures ApplyPairs(m, ps + qs, getValue) == ApplyPairs(ApplyPairs(m, ps, getValue), qs, getValue)
    decreases |ps|
  {
    if ps != [] {
      assert (ps + qs)[1..] == ps[1..] + qs;
      ApplyPairsAppend(ApplyPair(m, ps[0], getValue), ps[1..], qs, getValue);
    } else {
      assert ps + qs == qs;
    }
  }

  /** A field that no pair names keeps its value. */
  lemma {:induction false} UnnamedFieldUnchanged(m: Meta, ps: seq<Pair>, getValue: GetValue, f: Field)
    requires forall q :: 0 <= q < |ps| ==> ps[q].0 != KeyOf(f)
    ensures ApplyPairs(m, ps, getValue).Get(f) == m.Get(f)
    decreases |ps|
  {
    if ps != [] {
      assert ps[0].0 != KeyOf(f);
      UnnamedFieldUnchanged(ApplyPair(m, ps[0], getValue), ps[1..], getValue, f);
    }
  }

  /** Pair `p` is the last one that names field `f`. */
  ghost predicate IsLastFor(ps: seq<Pair>, f: Field, p: int)
  {
    0 <= p < |ps| && ps[p].0 == KeyOf(f) && forall q :: p < q < |ps| ==> ps[q].0 != KeyOf(f)
  }

  /** For a repeated key the last occurrence wins. */
  lemma {:induction false} LastOccurrenceWins(m: Meta, ps: seq<Pair>, getValue: GetValue, f: Field, p: int)
    requires IsLastFor(ps, f, p)
    ensures ApplyPairs(m, ps, getValue).Get(f) == Normalise(f, ps[p].1, getValue)
    decreases |ps|
  {
    var m' := ApplyPair(m, ps[0], getValue);
    if p == 0 {
      UnnamedFieldUnchanged(m', ps[1..], getValue, f);
    } else {
      LastOccurrenceWins(m', ps[1..], getValue, f, p - 1);
    }
  }

  /** The loop as the Java code runs it from index `i`, on arrays whose
      paired keys are non-null: `array[i++]` is the key and `array[i]` the
      value, read without checking the bound, so a trailing key throws
      `ArrayIndexOutOfBoundsException` with the offending index. */
  function LoopAsWritten(m: Meta, a: seq<JString>, i: nat, getValue: GetValue): Result<Meta, nat>
    requires i <= |a| && KeysNonNull(a[i..])
    decreases |a| - i
  {
    if i == |a| then Ok(m)
    else if i + 1 == |a| then Err(i + 1)
    else
      assert a[i..][2..] == a[i + 2..];
      LoopAsWritten(ApplyPair(m, (a[i].chars, a[i + 1]), getValue), a, i + 2, getValue)
  }

  /** The loop as written applies every pair when the array has an even
      length, and throws at index `|a|` when it has an odd one. */
  lemma {:induction false} LoopAsWrittenOutcome(m: Meta, a: seq<JString>, i: nat, getValue: GetValue)
    requires i <= |a| && KeysNonNull(a[i..])
    ensures (|a| - i) % 2 == 0 ==> LoopAsWritten(m, a, i, getValue) == Ok(ApplyPairs(m, Pairs(a[i..]), getValue))
    ensures (|a| - i) % 2 == 1 ==> LoopAsWritten(m, a, i, getValue) == Err(|a|)
    decreases |a| - i
  {
    if i + 1 < |a| {
      assert a[i..][2..] == a[i + 2..];
      LoopAsWrittenOutcome(ApplyPair(m, (a[i].chars, a[i + 1]), getValue), a, i + 2, getValue);
    }
  }

  /** The array `["title", "Song", "artist"]` makes the loop as written throw
      after the title has been read. */
  lemma OddArrayThrows(getValue: GetValue)
    ensures LoopAsWritten(NoMeta, [Str("title"), Str("Song"), Str("artist")], 0, getValue) == Err(3)
  {
    var a := [Str("title"), Str("Song"), Str("artist")];
    assert a[0..][2..] == a[2..];
  }

  /** The behaviour assumed of `Util.getValue`: a `null` or empty value
      becomes the category's placeholder, any other value is kept. */
  function PlaceholderGetValue(placeholder: Category -> string): (getValue: GetValue)
    ensures forall v, c :: getValue(v, c) == if v == Null || v.chars == "" then Str(placeholder(c)) else v
  {
    (v: JString, c: Category) => if v == Null || v.chars == "" then Str(placeholder(c)) else v
  }

  /** With that `getValue` and non-empty placeholders, normalising twice is
      normalising once, and artist, genre and album are never stored `null`
      or empty. */
  lemma PlaceholderNormalisation(placeholder: Category -> string, f: Field, v: JString)
    requires forall c :: placeholder(c) != ""
    ensures var getValue := PlaceholderGetValue(placeholder);
            Normalise(f, Normalise(f, v, getValue), getValue) == Normalise(f, v, getValue)
            && (f != Title ==> Normalise(f, v, getValue) != Null && Normalise(f, v, getValue).chars != "")
  {
  }

  /** After the loop, with that `getValue`, artist, genre and album are
      either untouched or hold a non-empty string. */
  lemma {:induction false} NormalisedFieldsNonEmpty(placeholder: Category -> string, m: Meta, ps: seq<Pair>, f: Field)
    requires forall c :: placeholder(c) != ""
    requires f != Title
    ensures var r := ApplyPairs(m, ps, PlaceholderGetValue(placeholder)).Get(f);
            r == m.Get(f) || (r != Null && r.chars != "")
    decreases |ps|
  {
    var getValue := PlaceholderGetValue(placeholder);
    if ps != [] {
      var m' := ApplyPair(m, ps[0], getValue);
      NormalisedFieldsNonEmpty(placeholder, m', ps[1..], f);
      PlaceholderNormalisation(placeholder, f, ps[0].1);
    }
  }
}
