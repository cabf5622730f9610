/**
 * The writer's helpers: the name an encoded file is written under, the
 * renaming that keeps an existing file from being overwritten, the sample
 * content a plan is filled with, and the size adjustment of a written file.
 * The target directory is a map from names to contents; reading and
 * writing real files is not modelled.
 */
module MainHelpers {
  import opened Common
  import opened Oracle
  import opened Settings
  import opened Refs
  import Utf8

  /** `get_actual_filename`: the planned name, kept so the file opens in its native application. */
  function GetActualFilename(f: EncodedFile): (r: string)
    ensures r == f.plan.filename
  {
    f.plan.filename
  }

  // ---------------------------------------------------------------------
  // The renaming loop of `create_linked_file`

  /** The position of the last `c` in `s`, as `rsplit(c, 1)` finds it. */
  function LastIndex(s: string, c: char): (r: Option<nat>)
    ensures r.None? <==> c !in s
    ensures r.Some? ==> r.value < |s| && s[r.value] == c && c !in s[r.value + 1..]
  {
    if s == [] then None
    else if s[|s| - 1] == c then Some(|s| - 1)
    else
      var r := LastIndex(s[..|s| - 1], c);
      assert r.Some? ==> s[r.value + 1..] == s[..|s| - 1][r.value + 1..] + [s[|s| - 1]];
      assert r.None? ==> s == s[..|s| - 1] + [s[|s| - 1]];
      r
  }

  /**
   * The name tried after `counter` collisions: the counter goes before the
   * last extension (`report_1.pdf`), or at the end of a name without one.
   */
  function Candidate(name: string, counter: nat): (r: string)
    ensures |r| == |name| + 1 + |NatToString(counter)|
    ensures LastIndex(name, '.').Some? ==>
      var i := LastIndex(name, '.').value;
      StartsWith(r, name[..i] + "_") && EndsWith(r, name[i..])
      && r[i + 1..i + 1 + |NatToString(counter)|] == NatToString(counter)
    ensures LastIndex(name, '.').None? ==>
      StartsWith(r, name + "_") && r[|name| + 1..] == NatToString(counter)
  {
    var digits := NatToString(counter);
    match LastIndex(name, '.')
    case Some(i) =>
      assert name[i..] == "." + name[i + 1..];
      ThreeParts(name[..i] + "_", digits, name[i..]);
      name[..i] + "_" + digits + name[i..]
    case None =>
      ThreeParts(name + "_", digits, []);
      name + "_" + digits
  }

  /** The `k`-th name tried: the planned name first, then the candidates numbered from 1. */
  function Attempt(name: string, k: nat): string
  {
    if k == 0 then name else Candidate(name, k)
  }

  /** Different attempts are different names, so the loop never tries a name twice. */
  lemma AttemptInjective(name: string, a: nat, b: nat)
    requires Attempt(name, a) == Attempt(name, b)
    ensures a == b
  {
    if a != 0 && b != 0 {
      var ra, rb := Candidate(name, a), Candidate(name, b);
      match LastIndex(name, '.')
      case Some(i) =>
        assert ra[i + 1..i + 1 + |NatToString(a)|] == NatToString(a);
        assert rb[i + 1..i + 1 + |NatToString(b)|] == NatToString(b);
        NatToStringInjective(a, b);
      case None =>
        assert ra[|name| + 1..] == NatToString(a);
        assert rb[|name| + 1..] == NatToString(b);
        NatToStringInjective(a, b);
    }
  }

  /** A sequence without repetitions inside a finite set is no longer than the set. */
  lemma {:induction false} DistinctWithin<T>(s: seq<T>, within: set<T>)
    requires Distinct(s)
    requires forall i :: 0 <= i < |s| ==> s[i] in within
    ensures |s| <= |within|
    decreases |s|
  {
    if s != [] {
      var last, init := s[|s| - 1], s[..|s| - 1];
      assert forall i :: 0 <= i < |init| ==> init[i] in within - {last};
      DistinctWithin(init, within - {last});
    }
  }

  /**
   * The `while file_path.exists()` loop against the names already in the
   * directory: the first attempt that is free, and how many collisions
   * came before it.
   */
  method FreeName(name: string, taken: set<string>) returns (path: string, collisions: nat)
    ensures path !in taken
    ensures path == Attempt(name, collisions)
    ensures forall k :: 0 <= k < collisions ==> Attempt(name, k) in taken
    ensures collisions == 0 <==> name !in taken
  {
    path := name;
    var counter := 1;
    ghost var tried: seq<string> := [];
    while path in taken
      invariant counter >= 1 && |tried| == counter - 1
      invariant path == Attempt(name, counter - 1)
      invariant forall j :: 0 <= j < |tried| ==> tried[j] == Attempt(name, j) && tried[j] in taken
      invariant Distinct(tried) && path !in tried
      invariant |tried| <= |taken|
      decreases |taken| - |tried|
    {
      tried := tried + [path];
      DistinctWithin(tried, taken);
      path := Candidate(name, counter);
      counter := counter + 1;
      forall j | 0 <= j < |tried| ensures tried[j] != path {
        if tried[j] == path {
          AttemptInjective(name, j, counter - 1);
        }
      }
    }
    collisions := counter - 1;
  }

  /** The directory the chaff is written into. */
  class TargetDirectory {
    var files: map<string, seq<byte>>

    constructor (existing: map<string, seq<byte>>)
      ensures files == existing
    {
      files := existing;
    }

    /**
     * `create_linked_file`: write the encoded content under the planned
     * name, or under the first numbered variant of it that is free; no
     * existing file is overwritten.
     */
    method CreateLinkedFile(f: EncodedFile) returns (path: string)
      modifies this
      ensures path !in old(files)
      ensures files == old(files)[path := f.content]
      ensures exists k: nat :: (path == Attempt(GetActualFilename(f), k)
        && forall j :: 0 <= j < k ==> Attempt(GetActualFilename(f), j) in old(files))
    {
      var collisions;
      path, collisions := FreeName(GetActualFilename(f), files.Keys);
      files := files[path := f.content];
    }

    /**
     * `adjust_file_size`: pad or truncate the file at `path`; a file that
     * does not exist raises inside the `try`, and nothing changes.
     */
    method AdjustFileSize(path: string, targetSize: int, fileType: string)
      modifies this
      ensures files == if path in old(files) then old(files)[path := Adjusted(old(files)[path], targetSize, fileType)] else old(files)
    {
      if path in files {
        files := files[path := Adjusted(files[path], targetSize, fileType)];
      }
    }
  }

  // ---------------------------------------------------------------------
  // adjust_file_size on the file's bytes

  /** `'\n' + ' ' * (n - 1)`, written in text mode: ASCII, so UTF-8 is the characters themselves. */
  function TextPadding(n: nat): (r: seq<byte>)
    requires n >= 1
    ensures |r| == n
    ensures r[0] == 10 && forall k :: 0 < k < n ==> r[k] == 32
  {
    var spaces := Repeat([32], n - 1);
    RepeatConst(32, n - 1);
    [10] + spaces
  }

  /**
   * The bytes of a file after `adjust_file_size`: a short file is padded with
   * zeros (an image) or a newline and spaces (anything else), a long one is
   * truncated, and a negative target makes `truncate` raise, which leaves
   * the file as it was.
   */
  function Adjusted(current: seq<byte>, targetSize: int, fileType: string): (r: seq<byte>)
    ensures targetSize >= 0 ==> |r| == targetSize
    ensures targetSize < 0 ==> r == current
    ensures |current| <= targetSize ==> r[..|current|] == current
    ensures 0 <= targetSize <= |current| ==> r == current[..targetSize]
    ensures |current| < targetSize && fileType == "jpg" ==>
      forall k :: |current| <= k < targetSize ==> r[k] == 0
    ensures |current| < targetSize && fileType != "jpg" ==>
      r[|current|] == 10 && forall k :: |current| < k < targetSize ==> r[k] == 32
  {
    if |current| < targetSize then
      var padding := targetSize - |current|;
      if fileType == "jpg" then
        var pad := Repeat([0], padding);
        RepeatConst(0, padding);
        var r := current + pad;
        assert forall k :: |current| <= k < targetSize ==> r[k] == pad[k - |current|];
        r
      else
        var pad := TextPadding(padding);
        var r := current + pad;
        assert forall k :: |current| <= k < targetSize ==> r[k] == pad[k - |current|];
        r
    else if |current| > targetSize then
      if targetSize < 0 then current else current[..targetSize]
    else
      assert current[..|current|] == current;
      current
  }

  /** `[x] * n` holds `x` everywhere. */
  lemma {:induction false} RepeatConst(x: byte, n: nat)
    ensures forall k :: 0 <= k < n ==> Repeat([x], n)[k] == x
    decreases n
  {
    if n > 0 {
      RepeatConst(x, n - 1);
      assert Repeat([x], n) == [x] + Repeat([x], n - 1);
    }
  }

  /** Adjusting a file a second time to the same size changes nothing. */
  lemma AdjustedIdempotent(current: seq<byte>, targetSize: int, fileType: string)
    ensures Adjusted(Adjusted(current, targetSize, fileType), targetSize, fileType)
      == Adjusted(current, targetSize, fileType)
  {
    var r := Adjusted(current, targetSize, fileType);
    if targetSize >= 0 {
      assert r[..|r|] == r;
    }
  }

  // ---------------------------------------------------------------------
  // generate_file_content and create_dummy_image_content

  /** The sample texts by language and file type, in the order they are written. */
  const ContentTemplates: Dict<string, Dict<string, string>> := [
    ("en", [
      ("txt", "This is a sample document containing important information about project data and analysis results."),
      ("eml", "From: sender@example.com\nTo: recipient@company.com\nSubject: Important Document\nDate: Mon, 15 Jan 2024 10:30:00 +0000\n\nDear Colleague,\n\nPlease find the attached documents for your review.\n\nBest regards,\nJohn Smith"),
      ("csv", "ID,Name,Date,Amount,Status\n1,John Doe,2024-01-15,1250.50,Active\n2,Jane Smith,2024-01-14,890.25,Pending")]),
    ("es", [
      ("txt", "Este es un documento de muestra que contiene informaci\U{FFFD}n importante sobre datos del proyecto y resultados de an\U{FFFD}lisis."),
      ("eml", "From: remitente@ejemplo.com\nTo: destinatario@empresa.com\nSubject: Documento Importante\nDate: Mon, 15 Jan 2024 10:30:00 +0000\n\nEstimado Colega,\n\nPor favor encuentre los documentos adjuntos para su revisi\U{FFFD}n.\n\nSaludos cordiales,\nJuan P\U{FFFD}rez")]),
    ("fr", [
      ("txt", "Ceci est un document d'exemple contenant des informations importantes sur les donn\U{FFFD}es de projet et les r\U{FFFD}sultats d'analyse.")]),
    ("de", [
      ("txt", "Dies ist ein Beispieldokument mit wichtigen Informationen \U{FFFD}ber Projektdaten und Analyseergebnisse.")])]

  /** Every sample text has something in it. */
  predicate AllNonEmpty(d: Dict<string, Dict<string, string>>)
  {
    forall i, j :: 0 <= i < |d| && 0 <= j < |d[i].1| ==> d[i].1[j].1 != []
  }

  lemma TemplatesNonEmpty()
    ensures AllNonEmpty(ContentTemplates)
  {
  }

  /** English is the first language, so the fallback is what asking for English gives. */
  lemma EnglishFirst()
    ensures DictGet(ContentTemplates, "en", ContentTemplates[0].1) == ContentTemplates[0].1
  {
    assert KeysDistinct(ContentTemplates);
    DictGetAt(ContentTemplates, 0, "en", ContentTemplates[0].1);
  }

  /** The texts of a language, English for a language without any. */
  function LanguageTexts(language: string): (r: Dict<string, string>)
    ensures forall j :: 0 <= j < |r| ==> r[j].1 != []
  {
    TemplatesNonEmpty();
    DictGetIn(ContentTemplates, language, ContentTemplates[0].1);
    DictGet(ContentTemplates, language, ContentTemplates[0].1)
  }

  /**
   * The base text: an unknown language falls back to English, and a file
   * type without a text of its own to that language's plain text, then to
   * "Sample content".
   */
  function BaseContent(fileType: string, language: string): (r: string)
    ensures r != []
  {
    hide ContentTemplates;
    var texts := LanguageTexts(language);
    DictGetIn(texts, "txt", "Sample content");
    DictGetIn(texts, fileType, DictGet(texts, "txt", "Sample content"));
    DictGet(texts, fileType, DictGet(texts, "txt", "Sample content"))
  }

  /** A language without texts of its own gets the English ones. */
  lemma LanguageFallback(fileType: string, language: string)
    requires DictFind(ContentTemplates, language).None?
    ensures BaseContent(fileType, language) == BaseContent(fileType, "en")
  {
    EnglishFirst();
  }

  /** A file type without a text of its own gets the language's plain text, or "Sample content". */
  lemma TypeFallback(fileType: string, language: string)
    requires DictFind(LanguageTexts(language), fileType).None?
    ensures BaseContent(fileType, language) == BaseContent("txt", language)
    ensures DictFind(LanguageTexts(language), "txt").None? ==> BaseContent(fileType, language) == "Sample content"
  {
  }

  /** The formats that get a header and a footer around the base text. */
  predicate Framed(fileType: string)
  {
    fileType in ["pdf", "docx", "xlsx"]
  }

  /** The text a non-image plan is filled with. */
  function ContentText(plan: FileGenerationPlan): (r: string)
    ensures Framed(plan.fileType) ==>
      var head := "[" + Upper(plan.fileType) + " Document]\n";
      StartsWith(r, head) && EndsWith(r, "\n[End of Document]")
      && |r| == |head| + |BaseContent(plan.fileType, plan.language)| + |"\n[End of Document]"|
      && r[|head|..|r| - |"\n[End of Document]"|] == BaseContent(plan.fileType, plan.language)
    ensures !Framed(plan.fileType) ==> r == BaseContent(plan.fileType, plan.language)
    ensures r != []
  {
    hide ContentTemplates;
    var base := BaseContent(plan.fileType, plan.language);
    if Framed(plan.fileType) then
      var head := "[" + Upper(plan.fileType) + " Document]\n";
      ThreeParts(head, base, "\n[End of Document]");
      head + base + "\n[End of Document]"
    else base
  }

  /**
   * Repeat the bytes past the size and cut, or cut them when they are
   * already long enough.
   */
  function FitToSize(content: seq<byte>, size: int): (r: seq<byte>)
    requires |content| > 0
    ensures size >= 0 ==> |r| == size
    ensures Cycles(r, content)
  {
    if |content| < size then
      RepeatCut(content, size);
      Repeat(content, size / |content| + 1)[..size]
    else
      SliceTo(content, size)
  }

  /** `len(pattern) == min(1024, size)` draws of `randint(0, 255)`. */
  function DrawBytes(t: Tape, n: nat): (r: (seq<byte>, Tape))
    ensures |r.0| == n
  {
    if n == 0 then ([], t)
    else
      var (b, t1) := DrawInt(t, 0, 255);
      var (rest, t2) := DrawBytes(t1, n - 1);
      ([b] + rest, t2)
  }

  /** The random pattern of an image of `size` bytes. */
  function ImagePattern(t: Tape, size: int): (r: (seq<byte>, Tape))
  {
    DrawBytes(t, Max(0, Min(1024, size)))
  }

  /**
   * `create_dummy_image_content`: a random pattern of at most 1024 bytes,
   * repeated to the size; a size of zero or less gives no bytes.
   */
  function CreateDummyImageContent(t: Tape, size: int): (r: (seq<byte>, Tape))
    ensures |r.0| == Max(0, size)
    ensures Cycles(r.0, ImagePattern(t, size).0)
    ensures r.1 == ImagePattern(t, size).1
  {
    var (pattern, t1) := ImagePattern(t, size);
    if size <= |pattern| then
      (SliceTo(pattern, size), t1)
    else
      RepeatCut(pattern, size);
      (Repeat(pattern, size / |pattern| + 1)[..size], t1)
  }

  /**
   * `generate_file_content`: an image is random bytes; anything else is the
   * UTF-8 of its text, repeated and cut to the planned size.
   */
  function GenerateFileContent(t: Tape, plan: FileGenerationPlan): (r: (seq<byte>, Tape))
    ensures plan.sizeBytes >= 0 ==> |r.0| == plan.sizeBytes
    ensures plan.fileType == "jpg" ==> r == CreateDummyImageContent(t, plan.sizeBytes)
    ensures plan.fileType != "jpg" ==> r.1 == t && Cycles(r.0, Utf8.Encode(ContentText(plan)))
  {
    hide ContentTemplates;
    if plan.fileType == "jpg" then CreateDummyImageContent(t, plan.sizeBytes)
    else (FitToSize(Utf8.Encode(ContentText(plan)), plan.sizeBytes), t)
  }
}
