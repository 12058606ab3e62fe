/**
 * Format lookup of the `src/io` tree: a format is found from a file extension or a MIME
 * type by exact, case-sensitive search of the static identifier tables, and a path gives
 * a file-extension identifier by the standard library's `Path::extension` rule.
 */
module Formats {
  import opened Outcomes
  import opened Syphon
  import opened WaveFormat

  datatype SyphonFormat = Wave

  /** `SyphonFormat::all()`: the formats in lookup order. */
  function All(): seq<SyphonFormat> {
    [Wave]
  }

  /** `identifiers()`: each format's static table. */
  function Identifiers(f: SyphonFormat): FormatIdentifiers {
    match f
    case Wave => WAVE_IDENTIFIERS
  }

  datatype FormatIdentifier = FileExtension(ext: string) | MimeType(mime: string)

  /** `[T]::contains`: a linear search with `==`. */
  function SliceContains(xs: seq<string>, x: string): (b: bool)
    ensures b <==> x in xs
  {
    if xs == [] then false else xs[0] == x || SliceContains(xs[1..], x)
  }

  /**
   * `FormatIdentifiers::contains`: an extension is looked up among the extensions only,
   * a MIME type among the MIME types only; the markers are never consulted.
   */
  function Contains(ids: FormatIdentifiers, id: FormatIdentifier): (b: bool)
    ensures id.FileExtension? ==> (b <==> id.ext in ids.fileExtensions)
    ensures id.MimeType? ==> (b <==> id.mime in ids.mimeTypes)
  {
    match id
    case FileExtension(ext) => SliceContains(ids.fileExtensions, ext)
    case MimeType(mime) => SliceContains(ids.mimeTypes, mime)
  }

  /** `iter().find`: the first format whose identifiers contain `id`. */
  function Find(fs: seq<SyphonFormat>, id: FormatIdentifier): (r: Option<SyphonFormat>)
    ensures r.Some? ==>
      exists k :: 0 <= k < |fs| && fs[k] == r.value && Contains(Identifiers(fs[k]), id)
        && forall j :: 0 <= j < k ==> !Contains(Identifiers(fs[j]), id)
    ensures r.None? <==> forall k :: 0 <= k < |fs| ==> !Contains(Identifiers(fs[k]), id)
  {
    if fs == [] then None
    else if Contains(Identifiers(fs[0]), id) then Some(fs[0])
    else
      var r := Find(fs[1..], id);
      assert forall k :: 1 <= k < |fs| ==> fs[k] == fs[1..][k - 1];
      r
  }

  /** `TryFrom<&FormatIdentifier> for SyphonFormat`: the first match in `All()`, or Unsupported. */
  function FormatFromIdentifier(id: FormatIdentifier): (r: Result<SyphonFormat, SyphonError>)
    ensures r.Ok? ==> Contains(Identifiers(r.value), id)
    ensures r.Err? <==> forall f :: f in All() ==> !Contains(Identifiers(f), id)
    ensures r.Err? ==> r.error == Unsupported
  {
    Find(All(), id).OkOr(Unsupported)
  }

  /** The two WAVE extensions and four WAVE MIME types resolve to Wave; nothing else resolves. */
  lemma WaveResolution(id: FormatIdentifier)
    ensures FormatFromIdentifier(id) == Ok(Wave) <==>
      (id.FileExtension? && id.ext in ["wav", "wave"])
      || (id.MimeType? && id.mime in ["audio/vnd.wave", "audio/x-wav", "audio/wav", "audio/wave"])
    ensures FormatFromIdentifier(id).Err? ==> FormatFromIdentifier(id) == Err(Unsupported)
  {
  }

  /** Matching is exact: case, the identifier's kind, and the header markers all matter. */
  lemma LookupIsExact()
    ensures FormatFromIdentifier(FileExtension("wav")) == Ok(Wave)
    ensures FormatFromIdentifier(FileExtension("WAV")) == Err(Unsupported)
    ensures FormatFromIdentifier(MimeType("wav")) == Err(Unsupported)
    ensures FormatFromIdentifier(FileExtension("audio/wav")) == Err(Unsupported)
    ensures FormatFromIdentifier(MimeType("RIFF")) == Err(Unsupported)
  {
    WaveResolution(FileExtension("WAV"));
    WaveResolution(MimeType("wav"));
    WaveResolution(FileExtension("audio/wav"));
    WaveResolution(MimeType("RIFF"));
  }

  // ---------------------------------------------------------------------------
  // Paths
  // ---------------------------------------------------------------------------

  /** The index of the last `c` in `s`, if any. */
  function LastIndexOf(s: string, c: char): (r: Option<nat>)
    ensures r.Some? ==> r.value < |s| && s[r.value] == c && forall j :: r.value < j < |s| ==> s[j] != c
    ensures r.None? <==> c !in s
  {
    if s == [] then None
    else if s[|s| - 1] == c then Some(|s| - 1)
    else
      var r := LastIndexOf(s[..|s| - 1], c);
      assert s == s[..|s| - 1] + [s[|s| - 1]];
      r
  }

  /**
   * Text made only of separators and `.` components, which `Path::file_name` skips at the
   * end of a path: every `.` stands alone between separators or the ends of the text.
   */
  predicate Noise(s: string) {
    forall i :: 0 <= i < |s| ==>
      s[i] == '/' || (s[i] == '.' && (i == 0 || s[i - 1] == '/') && (i + 1 == |s| || s[i + 1] == '/'))
  }

  /** What may follow the last component of a path: nothing, or a separator and then noise. */
  predicate Trailing(t: string) {
    t == [] || (t[0] == '/' && Noise(t))
  }

  /** `name` is the component of `path` that starts at `k`, and only trailing noise follows it. */
  predicate LastComponentAt(path: string, k: nat, name: string) {
    && k + |name| <= |path|
    && path[k..k + |name|] == name
    && (k == 0 || path[k - 1] == '/')
    && Trailing(path[k + |name|..])
  }

  /**
   * `Path::file_name`: the last component, after trailing separators and `.` components
   * are dropped; none for an empty path, the root, `.` or a path ending in `..`.
   */
  function FileName(path: string): (r: Option<string>)
    ensures r.Some? ==> r.value != [] && r.value != "." && r.value != ".." && '/' !in r.value
    ensures r.Some? ==> exists k :: LastComponentAt(path, k, r.value)
    ensures r.None? ==> Noise(path) || exists k :: LastComponentAt(path, k, "..")
    decreases |path|
  {
    match LastIndexOf(path, '/')
    case None =>
      if path == "" || path == "." || path == ".." then
        assert path == ".." ==> LastComponentAt(path, 0, "..");
        None
      else
        assert LastComponentAt(path, 0, path);
        Some(path)
    case Some(k) =>
      var last := path[k + 1..];
      assert path == path[..k] + "/" + last;
      if last == "" || last == "." then
        var r := FileName(path[..k]);
        FileNameSkipsNoise(path[..k], last, r);
        r
      else if last == ".." then
        assert LastComponentAt(path, k + 1, "..");
        None
      else
        assert LastComponentAt(path, k + 1, last);
        Some(last)
  }

  /** Noise followed by a separator and an empty or `.` component is still noise. */
  lemma NoiseExtends(s: string, last: string)
    requires Noise(s) && (last == "" || last == ".")
    ensures Noise(s + "/" + last)
  {
    var t := s + "/" + last;
    forall i | 0 <= i < |t|
      ensures t[i] == '/' || (t[i] == '.' && (i == 0 || t[i - 1] == '/') && (i + 1 == |t| || t[i + 1] == '/'))
    {
      if i < |s| {
        assert t[i] == s[i];
        assert s[i] == '/' || (s[i] == '.' && (i == 0 || s[i - 1] == '/') && (i + 1 == |s| || s[i + 1] == '/'));
        if i > 0 {
          assert t[i - 1] == s[i - 1];
        }
        if i + 1 < |s| {
          assert t[i + 1] == s[i + 1];
        } else {
          assert t[i + 1] == '/';
        }
      } else if i == |s| {
        assert t[i] == '/';
      } else {
        assert last == "." && i == |s| + 1 && |t| == |s| + 2;
        assert t[i] == last[0] == '.';
        assert t[i - 1] == '/';
      }
    }
  }

  /** A last component keeps its place when a separator and an empty or `.` component follow. */
  lemma ComponentSurvivesNoise(p: string, k: nat, name: string, last: string)
    requires LastComponentAt(p, k, name) && (last == "" || last == ".")
    ensures LastComponentAt(p + "/" + last, k, name)
  {
    var q := p + "/" + last;
    var t := p[k + |name|..];
    assert q[k + |name|..] == t + "/" + last;
    assert q[k..k + |name|] == p[k..k + |name|];
    assert k > 0 ==> q[k - 1] == p[k - 1];
    NoiseExtends(t, last);
    if t == [] {
      NoiseExtends([], last);
      assert t + "/" + last == [] + "/" + last;
    }
  }

  /** The recursive step of `FileName`: skipping a trailing empty or `.` component. */
  lemma FileNameSkipsNoise(dir: string, last: string, r: Option<string>)
    requires last == "" || last == "."
    requires r.Some? ==> exists k :: LastComponentAt(dir, k, r.value)
    requires r.None? ==> Noise(dir) || exists k :: LastComponentAt(dir, k, "..")
    ensures r.Some? ==> exists k :: LastComponentAt(dir + "/" + last, k, r.value)
    ensures r.None? ==> Noise(dir + "/" + last) || exists k :: LastComponentAt(dir + "/" + last, k, "..")
  {
    if r.Some? {
      var k :| LastComponentAt(dir, k, r.value);
      ComponentSurvivesNoise(dir, k, r.value, last);
    } else if Noise(dir) {
      NoiseExtends(dir, last);
    } else {
      var k :| LastComponentAt(dir, k, "..");
      ComponentSurvivesNoise(dir, k, "..", last);
    }
  }

  /**
   * Joining a name onto a directory makes it the file name, and a trailing separator
   * after it changes nothing.
   */
  lemma {:induction false} FileNameOfJoin(dir: string, name: string)
    requires name != [] && name != "." && name != ".." && '/' !in name
    ensures FileName(dir + "/" + name) == Some(name)
    ensures FileName(dir + "/" + name + "/") == Some(name)
  {
    var p := dir + "/" + name;
    assert p[|dir|] == '/';
    assert forall j :: |dir| < j < |p| ==> p[j] == name[j - |dir| - 1];
    assert LastIndexOf(p, '/') == Some(|dir|);
    assert p[|dir| + 1..] == name;
    var q := p + "/";
    assert LastIndexOf(q, '/') == Some(|p|);
    assert q[..|p|] == p && q[|p| + 1..] == "";
  }

  /**
   * `Path::extension` on a file name: the text after the last dot, unless there is no
   * dot, the only dot starts the name, or the name is `..`.
   */
  function ExtensionOf(name: string): (r: Option<string>)
    ensures r.Some? ==>
      '.' !in r.value && |r.value| + 1 < |name|
      && name[|name| - |r.value| - 1] == '.' && name[|name| - |r.value|..] == r.value
    ensures r.None? <==> name == ".." || '.' !in name || LastIndexOf(name, '.') == Some(0)
  {
    if name == ".." then None
    else match LastIndexOf(name, '.')
      case None => None
      case Some(k) =>
        if k == 0 then None
        else
          var ext := name[k + 1..];
          assert forall j :: 0 <= j < |ext| ==> ext[j] == name[k + 1 + j];
          Some(ext)
  }

  /**
   * `TryFrom<&Path> for FormatIdentifier`: the extension as a FileExtension, or
   * MissingData when the path has none.
   */
  function IdentifierFromPath(path: string): (r: Result<FormatIdentifier, SyphonError>)
    ensures r.Ok? ==> r.value.FileExtension? && '.' !in r.value.ext && '/' !in r.value.ext
    ensures r.Err? ==> r.error == MissingData
    ensures r.Ok? <==> FileName(path).Some? && ExtensionOf(FileName(path).value).Some?
    ensures r.Ok? ==> r.value == FileExtension(ExtensionOf(FileName(path).value).value)
  {
    match FileName(path)
    case None => Err(MissingData)
    case Some(name) =>
      match ExtensionOf(name)
      case None => Err(MissingData)
      case Some(ext) =>
        assert forall c :: c in ext ==> c in name;
        Ok(FileExtension(ext))
  }

  /** A file in a directory: the text after the last dot of the last component. */
  lemma PathExampleNested()
    ensures IdentifierFromPath("music/song.wav") == Ok(FileExtension("wav"))
  {
    NameOfNestedPath();
    ExtensionOfNestedName();
  }

  lemma ExtensionOfNestedName()
    ensures ExtensionOf("song.wav") == Some("wav")
  {
    var n := "song.wav";
    assert n[4] == '.' && forall j :: 4 < j < |n| ==> n[j] != '.';
  }

  lemma NameOfNestedPath()
    ensures FileName("music/song.wav") == Some("song.wav")
  {
    var p := "music/song.wav";
    assert p[5] == '/' && forall j :: 5 < j < |p| ==> p[j] != '/';
    assert p[6..] == "song.wav";
  }

  /** Only the last dot counts. */
  lemma PathExampleTwoDots()
    ensures IdentifierFromPath("a.tar.wave") == Ok(FileExtension("wave"))
  {
    var p := "a.tar.wave";
    assert '/' !in p;
    assert p[5] == '.' && forall j :: 5 < j < |p| ==> p[j] != '.';
  }

  /** A trailing separator is dropped before the last component is taken. */
  lemma PathExampleTrailingSlash()
    ensures IdentifierFromPath("d/s.wav/") == Ok(FileExtension("wav"))
  {
    NameOfPathWithTrailingSlash();
    ExtensionOfShortName();
  }

  lemma ExtensionOfShortName()
    ensures ExtensionOf("s.wav") == Some("wav")
  {
    var n := "s.wav";
    assert n[1] == '.' && forall j :: 1 < j < |n| ==> n[j] != '.';
  }

  lemma NameOfPathWithTrailingSlash()
    ensures FileName("d/s.wav/") == Some("s.wav")
  {
    var p := "d/s.wav/";
    var q := "d/s.wav";
    assert LastIndexOf(p, '/') == Some(7) && p[..7] == q && p[8..] == "";
    assert q[1] == '/' && forall j :: 1 < j < |q| ==> q[j] != '/';
    assert q[2..] == "s.wav";
  }

  /** A name that only starts with a dot has no extension; a name without a dot neither. */
  lemma PathsWithoutExtension()
    ensures IdentifierFromPath(".wav") == Err(MissingData)
    ensures IdentifierFromPath("song") == Err(MissingData)
  {
    var p := ".wav";
    assert '/' !in p;
    assert p[0] == '.' && forall j :: 0 < j < |p| ==> p[j] != '.';
    assert '/' !in "song" && '.' !in "song";
  }

  /** A path ending in `..` has no file name. */
  lemma PathToParentHasNoName()
    ensures IdentifierFromPath("d/..") == Err(MissingData)
  {
    var p := "d/..";
    assert p[1] == '/' && forall j :: 1 < j < |p| ==> p[j] != '/';
    assert p[2..] == "..";
  }
}
