/** The attachment reader: which files may be attached, how a file's text is
    cut into fixed-size blocks, and the text section the prompt receives.
    Reading a file (UTF-8 with a Latin-1 fallback, or PDF text extraction)
    is an oracle: the file system maps each existing regular file to the
    text that reading it yields, or to the reason reading it failed. */
module Attachments {
  import opened Results
  import opened PyText

  const MaxCharsDefault: int := 15000

  const SupportedTypes: set<string> := {".py", ".json", ".txt", ".md", ".pdf"}

  const SectionHeader: string := "## Archivos adjuntos para análisis"

  /** What reading a regular file yields. */
  datatype FileContent = Text(content: string) | Unreadable(reason: string)

  /** A path is a key exactly when a regular file exists there. */
  type FileSystem = map<string, FileContent>

  datatype AttachError =
    | NotFound(path: string)
    | UnsupportedType(name: string)
    | ReadFailed(reason: string)
    | InvalidBlockSize

  /** The text of the exception each error is raised with. */
  function Message(e: AttachError): string {
    match e
    case NotFound(path) => "No existe el archivo adjunto: " + path
    case UnsupportedType(name) => "Tipo de archivo no soportado: " + name
    case ReadFailed(reason) => reason
    case InvalidBlockSize => "max_chars debe ser mayor a cero"
  }

  // ---------------------------------------------------------------------
  // File types
  // ---------------------------------------------------------------------

  /** `Path(path).name`: the part after the last separator. */
  function BaseName(path: string): string {
    path[LastIndexOf(path, '/') + 1..]
  }

  /** `Path.suffix`: from the last dot of the name, unless that dot opens
      the name or ends it. */
  function Suffix(name: string): string {
    var i := LastIndexOf(name, '.');
    if 0 < i < |name| - 1 then name[i..] else ""
  }

  /** `validar_tipo_archivo`. */
  predicate ValidarTipoArchivo(path: string) {
    Lower(Suffix(BaseName(path))) in SupportedTypes
  }

  /** The base name of a path in a directory is the file's own name. */
  lemma BaseNameInDir(dir: string, name: string)
    requires dir == "" || dir[|dir| - 1] == '/'
    requires '/' !in name
    ensures BaseName(dir + name) == name
  {
    var path := dir + name;
    forall j | |dir| <= j < |path|
      ensures path[j] != '/'
    {
      assert path[j] == name[j - |dir|];
      assert name[j - |dir|] in name;
    }
    LastIndexOfCharacterised(path, '/', |dir| - 1);
    assert path[|dir|..] == name;
  }

  /** The suffix of `stem.ext`, for an extension without dots, is `.ext`. */
  lemma SuffixOfStemExt(stem: string, ext: string)
    requires |stem| > 0 && |ext| > 0 && '.' !in ext
    ensures Suffix(stem + "." + ext) == "." + ext
  {
    var name := stem + "." + ext;
    forall j | |stem| < j < |name|
      ensures name[j] != '.'
    {
      assert name[j] == ext[j - |stem| - 1];
      assert ext[j - |stem| - 1] in ext;
    }
    LastIndexOfCharacterised(name, '.', |stem|);
    assert name[|stem|..] == "." + ext;
  }

  /** A file `stem.ext` in any directory is accepted exactly when its
      lower-cased extension is one of the five supported ones, whatever
      the stem (which may itself contain dots). */
  lemma ValidTypeByExtension(dir: string, stem: string, ext: string)
    requires dir == "" || dir[|dir| - 1] == '/'
    requires |stem| > 0 && '/' !in stem
    requires |ext| > 0 && '/' !in ext && '.' !in ext
    ensures ValidarTipoArchivo(dir + stem + "." + ext) <==> Lower("." + ext) in SupportedTypes
  {
    var name := stem + "." + ext;
    assert dir + stem + "." + ext == dir + name;
    forall j | 0 <= j < |name|
      ensures name[j] != '/'
    {
      if j < |stem| {
        assert name[j] == stem[j] && stem[j] in stem;
      } else if j > |stem| {
        assert name[j] == ext[j - |stem| - 1] && ext[j - |stem| - 1] in ext;
      }
    }
    BaseNameInDir(dir, name);
    SuffixOfStemExt(stem, ext);
  }

  /** A file whose whole name is a dot followed by an extension (`.py`) has
      no suffix, so it is rejected whatever the extension. */
  lemma DotFileRejected(dir: string, ext: string)
    requires dir == "" || dir[|dir| - 1] == '/'
    requires '/' !in ext && '.' !in ext
    ensures !ValidarTipoArchivo(dir + "." + ext)
  {
    var name := "." + ext;
    forall j | 0 < j < |name|
      ensures name[j] != '/' && name[j] != '.'
    {
      assert name[j] == ext[j - 1] && ext[j - 1] in ext;
    }
    assert name[0] == '.';
    assert '/' !in name;
    assert dir + "." + ext == dir + name;
    BaseNameInDir(dir, name);
    LastIndexOfCharacterised(name, '.', 0);
    assert Suffix(name) == "";
  }

  /** The extension check ignores case: a file is accepted exactly when
      the same file with its extension lower-cased is (`informe.PY` as
      `informe.py`). */
  lemma ExtensionCaseInsensitive(dir: string, stem: string, ext: string)
    requires dir == "" || dir[|dir| - 1] == '/'
    requires |stem| > 0 && '/' !in stem
    requires |ext| > 0 && '/' !in ext && '.' !in ext
    ensures ValidarTipoArchivo(dir + stem + "." + ext) <==> ValidarTipoArchivo(dir + stem + "." + Lower(ext))
  {
    LowerKeepsPunctuation(ext);
    ValidTypeByExtension(dir, stem, ext);
    ValidTypeByExtension(dir, stem, Lower(ext));
    LowerDotted(ext);
  }

  /** Lower-casing changes letters only: it adds no dot and no separator. */
  lemma LowerKeepsPunctuation(ext: string)
    requires '/' !in ext && '.' !in ext
    ensures |Lower(ext)| == |ext| && '/' !in Lower(ext) && '.' !in Lower(ext)
  {
    var low := Lower(ext);
    forall j | 0 <= j < |low|
      ensures low[j] != '/' && low[j] != '.'
    {
      assert ext[j] in ext;
    }
  }

  /** Lower-casing a suffix whose extension is already lower-cased changes nothing. */
  lemma LowerDotted(ext: string)
    ensures Lower("." + ext) == Lower("." + Lower(ext))
  {
    var low := Lower(ext);
    forall j | 0 < j < |ext| + 1
      ensures Lower("." + ext)[j] == Lower("." + low)[j]
    {
      assert ("." + ext)[j] == ext[j - 1] && ("." + low)[j] == low[j - 1];
    }
  }

  /** `LastIndexOf` is the unique index its contract describes. */
  lemma LastIndexOfCharacterised(s: string, c: char, i: int)
    requires -1 <= i < |s|
    requires i >= 0 ==> s[i] == c
    requires forall j :: i < j < |s| ==> s[j] != c
    ensures LastIndexOf(s, c) == i
  {
  }

  // ---------------------------------------------------------------------
  // Blocks
  // ---------------------------------------------------------------------

  /** How many blocks a text of `len` characters is cut into: one for an
      empty text, otherwise the ceiling of `len / n`. */
  function BlockCount(len: nat, n: nat): nat
    requires n > 0
  {
    if len == 0 then 1 else (len + n - 1) / n
  }

  lemma CeilStep(len: nat, n: nat)
    requires n > 0 && len > n
    ensures BlockCount(len, n) == 1 + BlockCount(len - n, n)
  {
    var q := (len - 1) / n;
    var r := (len - 1) % n;
    assert len - 1 == q * n + r;
    assert len + n - 1 == (q + 1) * n + r;
    DivisionUnique(len + n - 1, n, q + 1, r);
  }

  lemma DivisionUnique(a: int, n: int, q: int, r: int)
    requires n > 0 && 0 <= r < n && a == q * n + r
    ensures a / n == q
  {
    var d := a / n;
    var m := a % n;
    assert d * n + m == q * n + r;
    if d > q {
      MulMono(q + 1, d, n);
    } else if d < q {
      MulMono(d + 1, q, n);
    }
  }

  lemma MulMono(x: int, y: int, n: int)
    requires x <= y && n > 0
    ensures x * n <= y * n
  {
    assert y * n - x * n == (y - x) * n;
  }

  /** The blocks `dividir_en_bloques` returns for a positive limit. */
  function Chunks(texto: string, n: nat): seq<string>
    requires n > 0
    decreases |texto|
  {
    if |texto| <= n then [texto] else [texto[..n]] + Chunks(texto[n..], n)
  }

  /** The blocks rebuild the text exactly: nothing is dropped or reordered. */
  lemma {:induction false} ChunksConcat(texto: string, n: nat)
    requires n > 0
    ensures Concat(Chunks(texto, n)) == texto
    decreases |texto|
  {
    if |texto| > n {
      ChunksConcat(texto[n..], n);
      var rest := Chunks(texto[n..], n);
      assert ([texto[..n]] + rest)[1..] == rest;
      assert texto == texto[..n] + texto[n..];
    }
  }

  /** There are ceil(len / n) blocks, and one for an empty text. */
  lemma {:induction false} ChunksCount(texto: string, n: nat)
    requires n > 0
    ensures |Chunks(texto, n)| == BlockCount(|texto|, n)
    decreases |texto|
  {
    if |texto| <= n {
      assert |texto| > 0 ==> (|texto| + n - 1) / n == 1 by {
        if |texto| > 0 {
          DivisionUnique(|texto| + n - 1, n, 1, |texto| - 1);
        }
      }
    } else {
      ChunksCount(texto[n..], n);
      CeilStep(|texto|, n);
    }
  }

  /** A text that fits is returned as its only block; a longer one is cut
      into blocks of exactly `n` characters and a non-empty last block of
      at most `n`. */
  lemma {:induction false} ChunksShape(texto: string, n: nat)
    requires n > 0
    ensures |texto| <= n ==> Chunks(texto, n) == [texto]
    ensures |texto| > n ==> |Chunks(texto, n)| >= 2
    ensures forall k :: 0 <= k < |Chunks(texto, n)| - 1 ==> |Chunks(texto, n)[k]| == n
    ensures texto != "" ==> 0 < |Chunks(texto, n)[|Chunks(texto, n)| - 1]| <= n
    decreases |texto|
  {
    if |texto| > n {
      ChunksShape(texto[n..], n);
      var rest := Chunks(texto[n..], n);
      assert Chunks(texto, n) == [texto[..n]] + rest;
    }
  }

  /** All the laws above at once. */
  lemma ChunksLaws(texto: string, n: nat)
    requires n > 0
    ensures Concat(Chunks(texto, n)) == texto
    ensures |Chunks(texto, n)| == BlockCount(|texto|, n)
    ensures |texto| <= n ==> Chunks(texto, n) == [texto]
    ensures |texto| > n ==> |Chunks(texto, n)| >= 2
    ensures forall k :: 0 <= k < |Chunks(texto, n)| - 1 ==> |Chunks(texto, n)[k]| == n
    ensures texto != "" ==> 0 < |Chunks(texto, n)[|Chunks(texto, n)| - 1]| <= n
  {
    ChunksConcat(texto, n);
    ChunksCount(texto, n);
    ChunksShape(texto, n);
  }

  /** One step of the loop below: the block that starts at `inicio` is the
      first of the blocks of the remaining text. */
  lemma ChunksFrom(texto: string, n: nat, inicio: nat)
    requires n > 0 && inicio < |texto|
    ensures var fin := inicio + n;
            if fin < |texto| then Chunks(texto[inicio..], n) == [texto[inicio..fin]] + Chunks(texto[fin..], n)
            else Chunks(texto[inicio..], n) == [texto[inicio..]]
  {
    var rest := texto[inicio..];
    if |rest| > n {
      assert rest[..n] == texto[inicio..inicio + n];
      assert rest[n..] == texto[inicio + n..];
    }
  }

  /** `dividir_en_bloques`, following the loop of the original. */
  method DividirEnBloques(texto: string, maxChars: int) returns (r: Result<seq<string>, AttachError>)
    ensures r.Failure? <==> maxChars <= 0
    ensures r.Failure? ==> r.error == InvalidBlockSize
    ensures r.Success? ==> r.value == Chunks(texto, maxChars)
    ensures r.Success? ==> Concat(r.value) == texto
    ensures r.Success? ==> |r.value| == BlockCount(|texto|, maxChars)
  {
    if maxChars <= 0 {
      return Failure(InvalidBlockSize);
    }
    ChunksLaws(texto, maxChars);
    if |texto| <= maxChars {
      return Success([texto]);
    }
    var bloques: seq<string> := [];
    var inicio := 0;
    while inicio < |texto|
      invariant 0 <= inicio
      invariant inicio < |texto| ==> bloques + Chunks(texto[inicio..], maxChars) == Chunks(texto, maxChars)
      invariant inicio >= |texto| ==> bloques == Chunks(texto, maxChars)
      decreases |texto| - inicio
    {
      var fin := inicio + maxChars;
      var bloque := texto[inicio..if fin < |texto| then fin else |texto|];
      ChunksFrom(texto, maxChars, inicio);
      if fin < |texto| {
        assert bloque == texto[inicio..fin];
        AppendAssoc(bloques, [bloque], Chunks(texto[fin..], maxChars));
      } else {
        assert bloque == texto[inicio..];
        assert bloques + [bloque] == bloques + Chunks(texto[inicio..], maxChars);
      }
      bloques := bloques + [bloque];
      inicio := fin;
    }
    return Success(bloques);
  }

  // ---------------------------------------------------------------------
  // The attachment section
  // ---------------------------------------------------------------------

  function FileHeading(name: string): string {
    "\n--- " + name + " ---\n"
  }

  function Notice(count: nat, maxChars: int): string {
    "[AVISO] Archivo extenso dividido en " + NatToString(count)
    + " bloques de hasta " + IntToString(maxChars) + " caracteres."
  }

  function BlockLabel(index: nat, count: nat): string {
    "\n[Bloque " + NatToString(index) + "/" + NatToString(count) + "]\n"
  }

  function LabelledBlocks(bloques: seq<string>): (r: seq<string>)
    ensures |r| == |bloques|
  {
    seq(|bloques|, i requires 0 <= i < |bloques| => BlockLabel(i + 1, |bloques|) + bloques[i])
  }

  /** The entries `leer_archivos` appends to its section list for one file
      named `name` whose text was cut into `bloques`. */
  function ContentSections(name: string, bloques: seq<string>, maxChars: int): seq<string>
    requires |bloques| > 0
  {
    if |bloques| == 1 then
      [FileHeading(name) + bloques[0]]
    else
      [FileHeading(name) + Notice(|bloques|, maxChars)] + LabelledBlocks(bloques)
  }

  /** A path is attachable when it names a regular file of a supported type
      whose text can be read. */
  predicate Readable(path: string, fs: FileSystem) {
    path in fs && ValidarTipoArchivo(path) && fs[path].Text?
  }

  /** The checks and entries for one path, in the order of the original:
      existence, type, reading, then splitting. */
  function FileSections(path: string, maxChars: int, fs: FileSystem): (r: Result<seq<string>, AttachError>)
    ensures r.Success? <==> Readable(path, fs) && maxChars > 0
    ensures r.Failure? && path !in fs ==> r.error == NotFound(path)
    ensures r.Failure? && path in fs && !ValidarTipoArchivo(path) ==> r.error == UnsupportedType(BaseName(path))
    ensures r.Failure? && Readable(path, fs) ==> r.error == InvalidBlockSize
  {
    if path !in fs then
      Failure(NotFound(path))
    else if !ValidarTipoArchivo(path) then
      Failure(UnsupportedType(BaseName(path)))
    else
      match fs[path]
      case Unreadable(reason) => Failure(ReadFailed(reason))
      case Text(content) =>
        if maxChars <= 0 then
          Failure(InvalidBlockSize)
        else
          Success(ContentSections(BaseName(path), Chunks(content, maxChars), maxChars))
  }

  /** The entries for all paths, stopping at the first path that fails. */
  function AllSections(paths: seq<string>, maxChars: int, fs: FileSystem): (r: Result<seq<string>, AttachError>)
    ensures r.Success? <==> forall p :: p in paths ==> FileSections(p, maxChars, fs).Success?
  {
    if |paths| == 0 then
      Success([])
    else
      var first := FileSections(paths[0], maxChars, fs);
      if first.Failure? then
        Failure(first.error)
      else
        var rest := AllSections(paths[1..], maxChars, fs);
        assert paths == [paths[0]] + paths[1..];
        if rest.Failure? then
          Failure(rest.error)
        else
          Success(first.value + rest.value)
  }

  /** A failure is the error of a path all of whose predecessors succeeded. */
  lemma {:induction false} AllSectionsFailure(paths: seq<string>, maxChars: int, fs: FileSystem)
    requires AllSections(paths, maxChars, fs).Failure?
    ensures exists k :: 0 <= k < |paths|
              && (forall j :: 0 <= j < k ==> FileSections(paths[j], maxChars, fs).Success?)
              && FileSections(paths[k], maxChars, fs) == Failure(AllSections(paths, maxChars, fs).error)
    decreases |paths|
  {
    var e := AllSections(paths, maxChars, fs).error;
    AllSectionsFailStep(paths, maxChars, fs);
    if FileSections(paths[0], maxChars, fs).Success? {
      var tail := paths[1..];
      AllSectionsFailure(tail, maxChars, fs);
      var k :| 0 <= k < |tail|
             && (forall j :: 0 <= j < k ==> FileSections(tail[j], maxChars, fs).Success?)
             && FileSections(tail[k], maxChars, fs) == Failure(e);
      assert forall j :: 0 < j < k + 1 ==> paths[j] == tail[j - 1];
      assert paths[k + 1] == tail[k];
    }
  }

  lemma AllSectionsFailStep(paths: seq<string>, maxChars: int, fs: FileSystem)
    requires AllSections(paths, maxChars, fs).Failure?
    ensures |paths| > 0
    ensures FileSections(paths[0], maxChars, fs).Failure? ==>
              FileSections(paths[0], maxChars, fs) == Failure(AllSections(paths, maxChars, fs).error)
    ensures FileSections(paths[0], maxChars, fs).Success? ==>
              AllSections(paths[1..], maxChars, fs) == Failure(AllSections(paths, maxChars, fs).error)
  {
  }

  /** `leer_archivos`: empty for no paths; otherwise the header line
      followed by every file's entries, joined by newlines and stripped.
      The first path that is missing, of an unsupported type or unreadable
      aborts the whole section with an error naming it. */
  function LeerArchivos(paths: seq<string>, maxChars: int, fs: FileSystem): (r: Result<string, AttachError>)
    ensures |paths| == 0 ==> r == Success("")
    ensures |paths| > 0 ==> (r.Success? <==> maxChars > 0 && forall p :: p in paths ==> Readable(p, fs))
    ensures r.Failure? ==> exists k :: 0 <= k < |paths|
                              && (forall j :: 0 <= j < k ==> Readable(paths[j], fs))
                              && FileSections(paths[k], maxChars, fs) == Failure(r.error)
    ensures |paths| > 0 && r.Success? ==> StartsWith(r.value, SectionHeader)
  {
    if |paths| == 0 then
      Success("")
    else
      var secciones := AllSections(paths, maxChars, fs);
      if secciones.Failure? then
        AllSectionsFailure(paths, maxChars, fs);
        Failure(secciones.error)
      else
        var joined := Join("\n", [SectionHeader] + secciones.value);
        LayoutAfterHeader(secciones.value);
        Success(Strip(joined))
  }

  /** Stripping the joined list only trims the end: the header starts and
      ends with non-space characters. */
  lemma LayoutAfterHeader(secciones: seq<string>)
    ensures Strip(Join("\n", [SectionHeader] + secciones))
         == SectionHeader + TrimRight(Concat(Prefixed("\n", secciones)))
  {
    var body := Concat(Prefixed("\n", secciones));
    JoinAsPrefixed("\n", SectionHeader, secciones);
    TrimLeftSolid(SectionHeader + body);
    TrimRightAfterSolid(SectionHeader, body);
  }

  // ---------------------------------------------------------------------
  // Layout as a reader sees it
  // ---------------------------------------------------------------------

  /** The text one readable file contributes, written out directly: a blank
      line and the `--- name ---` heading, then the whole text when it fits
      in one block, or else a notice giving the block count ceil(len / n)
      and the limit, followed by each block under its `[Bloque i/N]` label. */
  function FileLayout(name: string, content: string, n: nat): string
    requires n > 0
  {
    var count := BlockCount(|content|, n);
    var bloques := Chunks(content, n);
    if |content| <= n then
      "\n" + FileHeading(name) + content
    else
      "\n" + FileHeading(name) + Notice(count, n)
      + Concat(seq(|bloques|, i requires 0 <= i < |bloques| => "\n" + (BlockLabel(i + 1, count) + bloques[i])))
  }

  /** The files' layouts one after another. */
  function Layout(paths: seq<string>, n: nat, fs: FileSystem): string
    requires n > 0
    requires forall p :: p in paths ==> Readable(p, fs)
  {
    if |paths| == 0 then ""
    else
      var p := paths[0];
      assert p in paths && Readable(p, fs);
      FileLayout(BaseName(p), fs[p].content, n) + Layout(paths[1..], n, fs)
  }

  lemma ContentLayout(name: string, content: string, n: nat)
    requires n > 0
    ensures Concat(Prefixed("\n", ContentSections(name, Chunks(content, n), n))) == FileLayout(name, content, n)
  {
    var bloques := Chunks(content, n);
    var secs := ContentSections(name, bloques, n);
    ChunksCount(content, n);
    ChunksShape(content, n);
    if |content| <= n {
      assert Prefixed("\n", secs) == ["\n" + (FileHeading(name) + content)];
    } else {
      MultiBlockLayout(name, bloques, n, BlockCount(|content|, n));
    }
  }

  lemma MultiBlockLayout(name: string, bloques: seq<string>, n: nat, count: nat)
    requires |bloques| >= 2 && count == |bloques|
    ensures Concat(Prefixed("\n", ContentSections(name, bloques, n)))
         == "\n" + FileHeading(name) + Notice(count, n)
            + Concat(seq(|bloques|, i requires 0 <= i < |bloques| => "\n" + (BlockLabel(i + 1, count) + bloques[i])))
  {
    var labelled := LabelledBlocks(bloques);
    var head := "\n" + (FileHeading(name) + Notice(count, n));
    var tail := Prefixed("\n", labelled);
    assert Prefixed("\n", ContentSections(name, bloques, n)) == [head] + tail;
    assert ([head] + tail)[1..] == tail;
    assert tail == seq(|bloques|, i requires 0 <= i < |bloques| => "\n" + (BlockLabel(i + 1, count) + bloques[i]));
  }

  lemma FileLayoutMatches(path: string, n: nat, fs: FileSystem)
    requires n > 0 && Readable(path, fs)
    ensures Concat(Prefixed("\n", FileSections(path, n, fs).value))
         == FileLayout(BaseName(path), fs[path].content, n)
  {
    ContentLayout(BaseName(path), fs[path].content, n);
  }

  lemma {:induction false} AllSectionsLayout(paths: seq<string>, n: nat, fs: FileSystem)
    requires n > 0 && forall p :: p in paths ==> Readable(p, fs)
    ensures AllSections(paths, n, fs).Success?
    ensures Concat(Prefixed("\n", AllSections(paths, n, fs).value)) == Layout(paths, n, fs)
    decreases |paths|
  {
    if |paths| > 0 {
      assert paths[0] in paths;
      assert forall p :: p in paths[1..] ==> p in paths;
      AllSectionsLayout(paths[1..], n, fs);
      AllSectionsCons(paths, n, fs);
      var first := FileSections(paths[0], n, fs).value;
      var rest := AllSections(paths[1..], n, fs).value;
      PrefixedAppend("\n", first, rest);
      ConcatAppend(Prefixed("\n", first), Prefixed("\n", rest));
      FileLayoutMatches(paths[0], n, fs);
    }
  }

  /** A first file that succeeds puts its entries before the rest's. */
  lemma AllSectionsCons(paths: seq<string>, n: int, fs: FileSystem)
    requires |paths| > 0 && FileSections(paths[0], n, fs).Success?
    requires AllSections(paths[1..], n, fs).Success?
    ensures AllSections(paths, n, fs)
         == Success(FileSections(paths[0], n, fs).value + AllSections(paths[1..], n, fs).value)
  {
  }

  /** On success the section is the header followed by every file's layout
      in input order; only whitespace at the very end is trimmed. */
  lemma LeerArchivosLayout(paths: seq<string>, n: nat, fs: FileSystem)
    requires |paths| > 0 && n > 0 && forall p :: p in paths ==> Readable(p, fs)
    ensures LeerArchivos(paths, n, fs) == Success(SectionHeader + TrimRight(Layout(paths, n, fs)))
  {
    AllSectionsLayout(paths, n, fs);
    LayoutAfterHeader(AllSections(paths, n, fs).value);
  }
}
