/**
 * Deriving a media item's display name (`mFilename`) from its media resource
 * locator. `java.net.URL` itself is not modelled: what parsing the locator
 * yields is an input.
 */
module Locator {
  import opened JavaString

  /** What `new URL(mrl)` yields: a `MalformedURLException`, or the URL's
      file part (`getFile()`) and host (`getHost()`). */
  datatype UrlParse = Malformed | Url(file: string, host: string)

  /** `file.substring(file.lastIndexOf('/') + 1)`: the text after the last
      '/', or the whole of `file` when it has no '/'. */
  function Leaf(file: string): (leaf: string)
    ensures '/' !in leaf
  {
    file[LastIndexOf(file, '/') + 1..]
  }

  /** The leaf ends `file`, and starts it or follows a '/'. */
  lemma LeafIsSuffix(file: string)
    ensures |Leaf(file)| <= |file| && file[|file| - |Leaf(file)|..] == Leaf(file)
    ensures |Leaf(file)| == |file| || file[|file| - |Leaf(file)| - 1] == '/'
  {
  }

  /** Those properties pin the leaf down: no other suffix of `file` is free
      of '/' and starts the string or follows a '/'. */
  lemma LeafIsUnique(file: string, s: string)
    requires '/' !in s
    requires |s| <= |file| && file[|file| - |s|..] == s
    requires |s| == |file| || file[|file| - |s| - 1] == '/'
    ensures s == Leaf(file)
  {
  }

  /** The display name a probed media item gets from its locator: the URL's
      leaf; the host when the leaf is empty (no path, or a path ending in
      '/'); "" when the locator is not a URL. */
  function DisplayName(url: UrlParse): (name: string)
  {
    match url
    case Malformed => ""
    case Url(file, host) =>
      var leaf := Leaf(file);
      if leaf == "" then host else leaf
  }

  /** What the display name is in each case: "" for a locator that is not a
      URL, the host for an empty path or one ending in '/', the non-empty
      leaf otherwise. */
  lemma DisplayNameCases(url: UrlParse)
    ensures url.Malformed? ==> DisplayName(url) == ""
    ensures url.Url? && (url.file == "" || url.file[|url.file| - 1] == '/') ==> DisplayName(url) == url.host
    ensures url.Url? && url.file != "" && url.file[|url.file| - 1] != '/' ==>
              DisplayName(url) != "" && DisplayName(url) == Leaf(url.file)
  {
  }

  /** A locator with a file leaf is named after it; one whose path ends
      in '/' is named after its host. */
  lemma DisplayNameExamples()
    ensures DisplayName(Url("/path/Song.mp3", "host.example")) == "Song.mp3"
    ensures DisplayName(Url("/", "host.example")) == "host.example"
  {
    LeafIsUnique("/path/Song.mp3", "Song.mp3");
  }

  /** `name.substring(0, name.lastIndexOf('.'))`: `name` without its last '.'
      and what follows it. Java throws when `name` has no '.'. */
  function StripExtension(name: string): (base: string)
    requires '.' in name
    ensures |base| < |name| && name[..|base|] == base
    ensures name[|base|] == '.' && '.' !in name[|base| + 1..]
  {
    name[..LastIndexOf(name, '.')]
  }
}
