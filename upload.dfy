/**
 * The upload step the listing routes run before their handlers: one
 * optional file field "image", an image-type filter and a size limit.
 */
module Upload {
  import opened Wrappers
  import opened Text
  import opened Http

  /** 5 MiB: a larger file is refused. */
  const MaxFileSize: nat := 5 * 1024 * 1024
  const OnlyImages := "Only image files are allowed!"
  const FileTooLarge := "File too large"

  /**
   * An uploaded file: the client's file name and MIME type, its size, and
   * the name it was stored under (chosen from the clock and a random number,
   * so taken here as given).
   */
  datatype File = File(originalname: string, mimetype: string, size: nat, filename: string)

  /** `/jpeg|jpg|png|gif|webp/.test(s)`: an alternative occurs anywhere in `s`. */
  predicate ImagePattern(s: string) {
    Contains(s, "jpeg") || Contains(s, "jpg") || Contains(s, "png") || Contains(s, "gif") || Contains(s, "webp")
  }

  /** The last component of a '/'-separated path. */
  function BaseName(path: string): (b: string)
    ensures '/' !in b
    ensures |b| <= |path| && b == path[|path| - |b|..]
  {
    match LastIndexOfChar(path, '/')
    case None => path
    case Some(i) => path[i + 1..]
  }

  /**
   * The extension of a base name: from its last '.' on, unless that '.'
   * starts it or the name is "..".
   */
  function BaseExtension(base: string): (e: string)
    ensures e == [] || (e[0] == '.' && '.' !in e[1..])
    ensures |e| <= |base| && e == base[|base| - |e|..]
  {
    match LastIndexOfChar(base, '.')
    case None => []
    case Some(i) =>
      if i == 0 || (i == 1 && |base| == 2 && base[0] == '.') then []
      else
        assert base[i..][1..] == base[i + 1..];
        base[i..]
  }

  /** `path.extname`: the extension of the last path component. */
  function ExtName(path: string): (e: string)
    ensures e == [] || (e[0] == '.' && '.' !in e[1..])
    ensures |e| <= |path| && e == path[|path| - |e|..]
  {
    var base := BaseName(path);
    var e := BaseExtension(base);
    SuffixOfSuffix(path, base, e);
    e
  }

  /** A suffix of a suffix of `s` is a suffix of `s`. */
  lemma SuffixOfSuffix(s: string, t: string, u: string)
    requires |t| <= |s| && t == s[|s| - |t|..]
    requires |u| <= |t| && u == t[|t| - |u|..]
    ensures u == s[|s| - |u|..]
  {
  }

  /** The file filter: the lower-cased extension and the MIME type both match. */
  predicate FileFilter(f: File) {
    ImagePattern(Lower(ExtName(f.originalname))) && ImagePattern(f.mimetype)
  }

  /**
   * What the upload step hands on: no file, an accepted file, or an error
   * passed to the error middleware (the filter runs before the size limit).
   */
  function Receive(upload: Option<File>): (r: Result<Option<File>, Failure>)
    ensures upload.None? ==> r == Success(None)
    ensures r.Success? && r.value.Some? ==>
      r.value == upload && FileFilter(upload.value) && upload.value.size <= MaxFileSize
    ensures upload.Some? && !FileFilter(upload.value) ==> r == Failure(Message(OnlyImages))
    ensures upload.Some? && FileFilter(upload.value) && upload.value.size > MaxFileSize ==> r == Failure(Message(FileTooLarge))
  {
    match upload
    case None => Success(None)
    case Some(f) =>
      if !FileFilter(f) then Failure(Message(OnlyImages))
      else if f.size > MaxFileSize then Failure(Message(FileTooLarge))
      else Success(Some(f))
  }

  /** Text around a match leaves it a match. */
  lemma ContainsWithin(pre: string, s: string, post: string, part: string)
    requires Contains(s, part)
    ensures Contains(pre + s + post, part)
  {
    ContainsAppend(s, post, part);
    ContainsPrepend(pre, s + post, part);
    assert pre + (s + post) == pre + s + post;
  }

  /**
   * The patterns are unanchored: text around an accepted MIME type is
   * accepted too ("text/png-notes" passes as readily as "image/png").
   */
  lemma MimeMatchIsUnanchored(f: File, pre: string, post: string)
    requires FileFilter(f)
    ensures FileFilter(f.(mimetype := pre + f.mimetype + post))
  {
    var m := f.mimetype;
    if Contains(m, "jpeg") {
      ContainsWithin(pre, m, post, "jpeg");
    } else if Contains(m, "jpg") {
      ContainsWithin(pre, m, post, "jpg");
    } else if Contains(m, "png") {
      ContainsWithin(pre, m, post, "png");
    } else if Contains(m, "gif") {
      ContainsWithin(pre, m, post, "gif");
    } else {
      ContainsWithin(pre, m, post, "webp");
    }
  }

  /** A base name not starting with '.' has the extension from its last dot on. */
  lemma ExtensionFromLastDot(base: string, i: nat)
    requires LastIndexOfChar(base, '.') == Some(i) && 0 < i && base[0] != '.'
    ensures BaseExtension(base) == base[i..]
  {
  }

  /** The extension of a path is that of its last component, whatever precedes it. */
  lemma ExtNameOfLastComponent(dir: string, base: string)
    requires '/' !in base
    ensures ExtName(dir + "/" + base) == ExtName(base)
  {
    var p := dir + "/" + base;
    assert p[|dir|] == '/' && p[|dir| + 1..] == base;
    assert LastIndexOfChar(p, '/') == Some(|dir|);
    assert BaseName(p) == base;
    assert BaseName(base) == base;
  }

  /** The parent-directory name ".." has no extension, alone or at the end of a path. */
  lemma DotDotHasNoExtension(dir: string, dots: string)
    requires dots == ".."
    ensures ExtName(dots) == [] && ExtName(dir + "/" + dots) == []
  {
    assert dots[0] == '.' && dots[1] == '.' && |dots| == 2;
    assert LastIndexOfChar(dots[..1], '.') == Some(0);
    assert LastIndexOfChar(dots, '.') == Some(1);
    assert '/' !in dots;
    assert BaseName(dots) == dots;
    ExtNameOfLastComponent(dir, dots);
  }

  /** A name made of a plain stem, one dot and an extension has that extension. */
  lemma ExtNameOfStemAndExtension(stem: string, ext: string)
    requires stem != [] && '/' !in stem && '.' !in stem && '/' !in ext && '.' !in ext
    ensures ExtName(stem + "." + ext) == "." + ext
  {
    var name := stem + "." + ext;
    assert '/' !in name by {
      assert name == stem + ("." + ext);
    }
    assert BaseName(name) == name;
    var i := |stem|;
    assert name[i] == '.';
    assert name[i + 1..] == ext;
    assert LastIndexOfChar(name, '.') == Some(i);
    assert stem[0] in stem;
    ExtensionFromLastDot(name, i);
    assert name[i..] == "." + ext;
  }

  /**
   * The extension test is case-insensitive and needs only a substring: an
   * extension holding "png" in any case passes together with an image
   * MIME type.
   */
  lemma ExtensionMatchIsUnanchored(stem: string, ext: string, mime: string, size: nat, filename: string)
    requires stem != [] && '/' !in stem && '.' !in stem && '/' !in ext && '.' !in ext
    requires Contains(Lower(ext), "png") && ImagePattern(mime)
    ensures FileFilter(File(stem + "." + ext, mime, size, filename))
  {
    ExtNameOfStemAndExtension(stem, ext);
    LowerConcat(".", ext);
    ContainsPrepend(".", Lower(ext), "png");
  }
}
