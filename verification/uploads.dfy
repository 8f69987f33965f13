/** Where an uploaded PDF is stored (`pdf_upload_path`) and the name shown for it
    (`PDFDocument.filename`). Paths use '/' as the separator. */
module Uploads {
  import opened Strings

  const UploadDir: string := "pdfs/"
  const Dot: char := '.'
  const Slash: char := '/'

  /** `filename.split('.')[-1]`: the text after the last dot, or the whole name when it has
      none. */
  function Extension(filename: string): (ext: string)
    ensures IsLastField(filename, ext, {Dot})
  {
    LastFieldSpec(filename, {Dot});
    LastField(filename, {Dot})
  }

  /** `pdf_upload_path(instance, filename)`: the document's title, a dot and the uploaded
      file's extension, inside `pdfs/`. */
  function UploadPath(title: string, filename: string): (p: string)
    ensures |UploadDir + title| < |p| && p[..|UploadDir + title|] == UploadDir + title
    ensures p[|UploadDir + title|] == Dot
    ensures p[|UploadDir + title| + 1..] == Extension(filename)
  {
    UploadDir + title + [Dot] + Extension(filename)
  }

  /** `PDFDocument.filename()`, i.e. `os.path.basename` of the stored name: the text after
      the last slash. */
  function BaseName(name: string): (b: string)
    ensures IsLastField(name, b, {Slash})
  {
    LastFieldSpec(name, {Slash});
    LastField(name, {Slash})
  }

  /** The stored path keeps the uploaded file's extension. */
  lemma ExtensionKept(title: string, filename: string)
    ensures Extension(UploadPath(title, filename)) == Extension(filename)
  {
    var ext := Extension(filename);
    LastFieldAfterSep(UploadDir + title, Dot, ext, {Dot});
    LastFieldOfPlain(ext, {Dot});
  }

  /** Only the extension of the uploaded name matters: everything up to its last dot is
      dropped. */
  lemma OnlyExtensionMatters(title: string, stem: string, ext: string)
    ensures UploadPath(title, stem + [Dot] + ext) == UploadPath(title, ext)
  {
    LastFieldAfterSep(stem, Dot, ext, {Dot});
  }

  /** A name without a dot is taken whole as the extension. */
  lemma NoDotNameIsExtension(title: string, filename: string)
    requires NoneIn(filename, {Dot})
    ensures Extension(filename) == filename
    ensures UploadPath(title, filename) == UploadDir + title + [Dot] + filename
  {
    LastFieldOfPlain(filename, {Dot});
  }

  /** The base name of the requested path is the title and the extension, provided neither
      holds a slash. The storage layer may still rewrite that name before it is stored; that
      step is not modelled. */
  lemma UploadBaseName(title: string, filename: string)
    requires NoneIn(title, {Slash}) && NoneIn(Extension(filename), {Slash})
    ensures BaseName(UploadPath(title, filename)) == title + [Dot] + Extension(filename)
  {
    var rest := title + [Dot] + Extension(filename);
    assert UploadPath(title, filename) == "pdfs" + [Slash] + rest;
    LastFieldAfterSep("pdfs", Slash, rest, {Slash});
    LastFieldOfPlain(rest, {Slash});
  }

  /** A title holding a slash names a sub-directory in the requested path, and the base name
      of that path loses the part of the title up to its last slash. */
  lemma SlashInTitle(a: string, b: string, filename: string)
    requires NoneIn(b, {Slash}) && NoneIn(Extension(filename), {Slash})
    ensures BaseName(UploadPath(a + [Slash] + b, filename)) == b + [Dot] + Extension(filename)
  {
    var rest := b + [Dot] + Extension(filename);
    SlashTitlePath(a, b, filename);
    NoSlashName(b, Extension(filename));
    LastFieldAfterSep(UploadDir + a, Slash, rest, {Slash});
    LastFieldOfPlain(rest, {Slash});
  }

  lemma SlashTitlePath(a: string, b: string, filename: string)
    ensures UploadPath(a + [Slash] + b, filename)
         == (UploadDir + a) + [Slash] + (b + [Dot] + Extension(filename))
  {
  }

  lemma NoSlashName(b: string, ext: string)
    requires NoneIn(b, {Slash}) && NoneIn(ext, {Slash})
    ensures NoneIn(b + [Dot] + ext, {Slash})
  {
  }
}
