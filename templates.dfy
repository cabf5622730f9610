/**
 * The parts of the document templates that decide something without a
 * rendering library: which template a file type gets, which Faker locale a
 * language gets, the two draws every template takes when it is built, how a
 * TXT body is padded to its target size, how many extra rows a CSV file may
 * receive, and the subject line of each message of an email thread.
 *
 * Everything a template draws through Faker or renders through reportlab,
 * python-docx, openpyxl or PIL is outside this module: the text a template
 * writes arrives here as a parameter.
 */
module Templates {
  import opened Common
  import opened Oracle
  import Utf8

  datatype TemplateKind = Pdf | Docx | Xlsx | Eml | Csv | Txt | Jpg | Png

  /** The factory's table, in its declaration order. */
  const TemplateTable: seq<(string, TemplateKind)> := [
    ("pdf", Pdf), ("docx", Docx), ("xlsx", Xlsx), ("eml", Eml),
    ("csv", Csv), ("txt", Txt), ("jpg", Jpg), ("png", Png)
  ]

  /** The type name a kind is registered under. */
  function KindName(k: TemplateKind): string
  {
    match k
    case Pdf => "pdf" case Docx => "docx" case Xlsx => "xlsx" case Eml => "eml"
    case Csv => "csv" case Txt => "txt" case Jpg => "jpg" case Png => "png"
  }

  /** The table registers each kind under its own name, and no name twice. */
  lemma TableShape()
    ensures |TemplateTable| == 8 && KeysDistinct(TemplateTable)
    ensures forall i :: 0 <= i < |TemplateTable| ==> TemplateTable[i].0 == KindName(TemplateTable[i].1)
  {
    // the first two letters already tell the names apart
    var codes := [0x7064, 0x646f, 0x786c, 0x656d, 0x6373, 0x7478, 0x6a70, 0x706e];
    forall i | 0 <= i < 8 ensures |TemplateTable[i].0| >= 2 && TemplateTable[i].0[0] as int * 256 + TemplateTable[i].0[1] as int == codes[i] {
    }
    forall i, j | 0 <= i < j < 8 ensures TemplateTable[i].0 != TemplateTable[j].0 {
      assert codes[i] != codes[j];
    }
  }

  /** The position of a kind in the table. */
  function KindIndex(k: TemplateKind): (i: nat)
    ensures i < |TemplateTable| && TemplateTable[i].1 == k
  {
    match k case Pdf => 0 case Docx => 1 case Xlsx => 2 case Eml => 3
    case Csv => 4 case Txt => 5 case Jpg => 6 case Png => 7
  }

  /** `template_classes.get(name)`. */
  function LookupKind(name: string): (r: Option<TemplateKind>)
    ensures r.Some? ==> KindName(r.value) == name
    ensures r.None? ==> name !in GetSupportedTypes()
  {
    TableShape();
    hide TemplateTable, KindName;
    match DictFind(TemplateTable, name)
    case None => None
    case Some(i) => Some(TemplateTable[i].1)
  }

  /** `get_supported_types()`: the table's keys in order, each naming its own template. */
  function GetSupportedTypes(): (r: seq<string>)
    ensures |r| == 8
    ensures forall i :: 0 <= i < |r| ==> r[i] == TemplateTable[i].0 == KindName(TemplateTable[i].1)
    ensures forall i, j :: 0 <= i < j < |r| ==> r[i] != r[j]
  {
    TableShape();
    hide TemplateTable, KindName;
    Keys(TemplateTable)
  }

  /** Every supported name is found by the factory's lookup, and maps to the kind the table gives it. */
  lemma SupportedTypesLookup(i: nat)
    requires i < 8
    ensures LookupKind(GetSupportedTypes()[i]) == Some(TemplateTable[i].1)
  {
    TableShape();
    hide GetSupportedTypes, TemplateTable;
    LookupKindName(TemplateTable[i].1);
  }

  /** The lookup finds every kind under its own name. */
  lemma LookupKindName(k: TemplateKind)
    ensures LookupKind(KindName(k)) == Some(k)
  {
    TableShape();
    var i := KindIndex(k);
    hide TemplateTable, KindIndex;
    var j := DictFind(TemplateTable, KindName(k)).value;
    assert i == j;
  }

  /** `faker_locale_map.get(language, 'en_US')`. */
  function FakerLocale(language: string): (r: string)
    ensures |r| == 5 && r[2] == '_'
    ensures r == "en_US" <==> language !in {"cn", "jp", "es", "fr", "de", "ru"}
  {
    if language == "cn" then "zh_CN"
    else if language == "jp" then "ja_JP"
    else if language == "en" then "en_US"
    else if language == "es" then "es_ES"
    else if language == "fr" then "fr_FR"
    else if language == "de" then "de_DE"
    else if language == "ru" then "ru_RU"
    else "en_US"
  }

  /** The age bands a template's base document date is drawn from. */
  datatype AgeCategory = Recent | Medium | Old | Archive

  const AgeCategories: seq<AgeCategory> := [Recent, Medium, Old, Archive]

  /** The weights 0.3, 0.4, 0.2 and 0.1, in hundredths. */
  const AgeWeights: seq<nat> := [30, 40, 20, 10]

  /** The oldest and newest day, counted back from now, of a band. */
  function AgeRange(c: AgeCategory): (r: (nat, nat))
    ensures r.0 > r.1
  {
    match c
    case Recent => (90, 1)
    case Medium => (730, 90)
    case Old => (1825, 730)
    case Archive => (3650, 1825)
  }

  /**
   * A freshly built template. The position of the base document date inside
   * its band is the raw draw `random.uniform` consumed.
   */
  datatype Template = Template(kind: TemplateKind, language: string, locale: string,
                               age: AgeCategory, dateDraw: nat)

  /**
   * `TemplateFactory.create_template(file_type, language)`: the lower-cased
   * type is looked up, an unknown one raises ValueError, and a known one is
   * built by `BaseTemplate.__init__`, which draws the age band with
   * `random.choices` and the date inside it with `random.uniform`.
   */
  function CreateTemplate(t: Tape, fileType: string, language: string): (r: Result<(Template, Tape), string>)
    ensures r.Err? <==> Lower(fileType) !in GetSupportedTypes()
    ensures r.Err? ==> r.error == "Unsupported file type: " + fileType
    ensures r.Ok? ==> var tm := r.value.0;
      KindName(tm.kind) == Lower(fileType) && tm.language == language
      && tm.locale == FakerLocale(language) && r.value.1 == Rest(Rest(t))
  {
    var name := Lower(fileType);
    LookupSupported(name);
    match LookupKind(name)
    case None => Err("Unsupported file type: " + fileType)
    case Some(kind) => Ok(NewTemplate(t, kind, language))
  }

  /** The lookup fails exactly on the names the factory does not list. */
  lemma LookupSupported(name: string)
    ensures LookupKind(name).None? <==> name !in GetSupportedTypes()
  {
    if LookupKind(name).Some? {
      KindSupported(LookupKind(name).value);
    }
  }

  /** `BaseTemplate.__init__`: the age band, then the raw draw of the date inside it. */
  function NewTemplate(t: Tape, kind: TemplateKind, language: string): (r: (Template, Tape))
    ensures r.0.kind == kind && r.0.language == language && r.0.locale == FakerLocale(language)
    ensures r.1 == Rest(Rest(t))
  {
    var (age, t1) := DrawAge(t);
    (Template(kind, language, FakerLocale(language), age, if t1 == [] then 0 else t1[0]), Rest(t1))
  }

  lemma KindSupported(k: TemplateKind)
    ensures KindName(k) in GetSupportedTypes()
  {
    var i := KindIndex(k);
    assert GetSupportedTypes()[i] == KindName(k);
  }

  /** `random.choices(['recent', 'medium', 'old', 'archive'], weights=[0.3, 0.4, 0.2, 0.1])[0]`. */
  function DrawAge(t: Tape): (r: (AgeCategory, Tape))
    ensures r.1 == Rest(t)
  {
    assert Sum(AgeWeights) == 100;
    var (band, t1) := DrawWeighted(t, AgeWeights);
    (AgeCategories[band], t1)
  }

  /** The factory ignores the case of the type it is asked for. */
  lemma CreateTemplateIgnoresCase(t: Tape, fileType: string, language: string)
    ensures CreateTemplate(t, fileType, language).Ok? == CreateTemplate(t, Lower(fileType), language).Ok?
  {
    hide CreateTemplate, GetSupportedTypes;
    LowerIdempotent(fileType);
  }

  /** Every age band can come up: each has a draw that selects it. */
  lemma AgeBandDrawn(t: Tape, c: AgeCategory)
    ensures exists u: nat :: DrawAge([u] + t).0 == c
  {
    var m := if c == Recent then 0 else if c == Medium then 1 else if c == Old then 2 else 3;
    assert AgeWeights[m] > 0 && AgeCategories[m] == c;
    PickBefore(AgeWeights, m);
    BeforeBelowSum(AgeWeights, m);
    var u := Before(AgeWeights, m);
    assert ([u] + t)[0] == u;
    assert DrawAge([u] + t).0 == c;
  }

  datatype PadError = ZeroDivision

  /**
   * The end of `TXTTemplate.generate`: encoded text shorter than the target
   * is repeated `target // len + 1` times and cut to the target; an empty
   * text with a positive target divides by zero.
   */
  function TxtPad(content: seq<byte>, target: int): (r: Result<seq<byte>, PadError>)
    ensures r.Err? <==> |content| == 0 && target > 0
    ensures |content| >= target ==> r == Ok(content)
  {
    if |content| < target then
      if |content| == 0 then Err(ZeroDivision)
      else Ok(Repeat(content, target / |content| + 1)[..target])
    else Ok(content)
  }

  /** Padding hits the target exactly and cycles the original text from its first byte. */
  lemma TxtPadExact(content: seq<byte>, target: int)
    requires 0 < |content| < target
    ensures TxtPad(content, target).Ok?
    ensures |TxtPad(content, target).value| == target
    ensures Cycles(TxtPad(content, target).value, content)
  {
    RepeatCut(content, target);
  }

  /**
   * The number of extra rows the CSV template is allowed:
   * `min((target - len) // 200, 5000)` when the content is short of a target
   * above 10000 bytes, and none otherwise.
   */
  function ExtraRowCap(len: nat, target: int): (n: nat)
    ensures n <= 5000
    ensures n > 0 ==> len < target && target > 10000 && 200 * n <= target - len
  {
    if len < target && target > 10000 then Min((target - len) / 200, 5000) else 0
  }

  /** The text of the first `k` extra rows, each written after a newline. */
  function Rows(row: nat -> string, k: nat): (r: string)
    ensures |r| >= k
    ensures k > 0 ==> EndsWith(r, "\n" + row(k - 1))
  {
    if k == 0 then []
    else
      var prev := Rows(row, k - 1);
      assert (prev + ("\n" + row(k - 1)))[|prev|..] == "\n" + row(k - 1);
      assert prev + "\n" + row(k - 1) == prev + ("\n" + row(k - 1));
      prev + "\n" + row(k - 1)
  }

  /** One more row: a newline and the row, after the earlier ones. */
  lemma RowsSnoc(row: nat -> string, k: nat)
    ensures Rows(row, k + 1) == Rows(row, k) + "\n" + row(k)
  {
  }

  /** Rows are only ever added: the text of fewer rows starts the text of more. */
  lemma {:induction false} RowsPrefix(row: nat -> string, j: nat, k: nat)
    requires j <= k
    ensures StartsWith(Rows(row, k), Rows(row, j))
    decreases k - j
  {
    if j < k {
      RowsPrefix(row, j, k - 1);
      var prev := Rows(row, k - 1);
      assert Rows(row, k)[..|prev|] == prev;
      assert Rows(row, k)[..|Rows(row, j)|] == prev[..|Rows(row, j)|];
    }
  }

  /** After the row numbered `k` the encoded buffer is still below nine tenths of the target. */
  predicate ShortAt(text: string, target: int, row: nat -> string, k: nat)
  {
    10 * |Utf8.Encode(text + Rows(row, k + 1))| < 9 * target
  }

  lemma ShortAtBuffer(text: string, target: int, row: nat -> string, k: nat, buffer: string)
    requires buffer == text + Rows(row, k + 1) && 10 * |Utf8.Encode(buffer)| < 9 * target
    ensures ShortAt(text, target, row, k)
  {
  }

  /**
   * The extra-row loop of `CSVTemplate.generate`: up to the cap, append a
   * newline and a row; after rows 0, 100, 200, ... stop once the encoded
   * buffer reaches nine tenths of the target, so the loop ends at the first
   * such check that finds the buffer full, or at the cap. The rows `_write_data_row`
   * writes come from `row`.
   */
  method AddCsvRows(text: string, target: int, row: nat -> string) returns (out: seq<byte>, written: nat)
    ensures out == Utf8.Encode(text + Rows(row, written))
    ensures written <= ExtraRowCap(|Utf8.Encode(text)|, target)
    ensures written < ExtraRowCap(|Utf8.Encode(text)|, target) ==>
      (written - 1) % 100 == 0 && 10 * |out| >= 9 * target
    ensures forall k :: 0 <= k < written - 1 && k % 100 == 0 ==> ShortAt(text, target, row, k)
  {
    hide Utf8.Encode, ExtraRowCap;
    assert text + Rows(row, 0) == text;
    hide Rows, ShortAt;
    var cap := ExtraRowCap(|Utf8.Encode(text)|, target);
    var buffer := text;
    var i := 0;
    var full := false;
    while i < cap && !full
      invariant 0 <= i <= cap
      invariant buffer == text + Rows(row, i)
      invariant full ==> i >= 1 && (i - 1) % 100 == 0 && 10 * |Utf8.Encode(buffer)| >= 9 * target
      invariant forall k :: 0 <= k < i && k % 100 == 0 && (k < i - 1 || !full) ==> ShortAt(text, target, row, k)
      decreases cap - i
    {
      RowsSnoc(row, i);
      buffer := buffer + "\n" + row(i);
      assert buffer == text + Rows(row, i + 1);
      full := i % 100 == 0 && 10 * |Utf8.Encode(buffer)| >= 9 * target;
      if i % 100 == 0 && !full {
        ShortAtBuffer(text, target, row, i, buffer);
      }
      i := i + 1;
    }
    out := Utf8.Encode(buffer);
    written := i;
  }

  /** The extra rows decode back to the rows written, after the original text. */
  lemma CsvRowsDecode(text: string, row: nat -> string, written: nat)
    ensures Utf8.DecodeIgnore(Utf8.Encode(text + Rows(row, written))) == text + Rows(row, written)
  {
    Utf8.DecodeEncode(text + Rows(row, written));
  }

  /**
   * The subjects of a thread of `n` messages, as `_generate_conversation_thread`
   * sets them message by message.
   */
  method ThreadSubjects(base: string, n: nat) returns (subjects: seq<string>)
    ensures |subjects| == n
    ensures n > 0 ==> subjects[0] == base
    ensures forall i :: 1 <= i < n && i <= 2 ==> subjects[i] == "Re: " + base
    ensures forall i :: 2 < i < n ==> subjects[i] == "Re: Re: " + base
  {
    subjects := [];
    var i := 0;
    while i < n
      invariant 0 <= i <= n && |subjects| == i
      invariant i > 0 ==> subjects[0] == base
      invariant forall j :: 1 <= j < i && j <= 2 ==> subjects[j] == "Re: " + base
      invariant forall j :: 2 < j < i ==> subjects[j] == "Re: Re: " + base
    {
      var subject;
      if i == 0 {
        subject := base;
      } else {
        subject := "Re: " + base;
        if i > 2 {
          subject := "Re: " + subject;
        }
      }
      subjects := subjects + [subject];
      i := i + 1;
    }
  }

  /** Later replies only add prefixes: each subject ends with every earlier one. */
  lemma ThreadSubjectsNest(base: string, subjects: seq<string>, i: nat, j: nat)
    requires |subjects| > j && i <= j
    requires subjects[0] == base
    requires forall k :: 1 <= k < |subjects| && k <= 2 ==> subjects[k] == "Re: " + base
    requires forall k :: 2 < k < |subjects| ==> subjects[k] == "Re: Re: " + base
    ensures EndsWith(subjects[j], subjects[i])
  {
    var s, e := subjects[j], subjects[i];
    if i == 0 || j <= 2 || i > 2 {
      if i == 0 {
        assert s[|s| - |base|..] == base;
      }
    } else {
      assert s == "Re: " + ("Re: " + base);
      assert s[|s| - |e|..] == "Re: " + base;
    }
  }
}
