/**
 * The phrase generator: data files are classified by name, vocabularies
 * and templates are read from them, `@PLACEHOLDER` tokens in a template
 * are replaced by random vocabulary entries and places, and a document is
 * assembled from generated sentences up to a length. Reading the data
 * directory and its files is not modelled: the listing and the loaded
 * data are given.
 */
module Phrases {
  import opened Common
  import opened Oracle

  // ---------------------------------------------------------------------
  // _read_lines

  /** `[line.strip() for line in lines if line.strip()]`. */
  function StrippedLines(lines: seq<string>): (r: seq<string>)
    ensures |r| <= |lines|
    ensures forall k :: 0 <= k < |r| ==> r[k] != [] && Strip(r[k]) == r[k]
  {
    if lines == [] then []
    else
      var rest := StrippedLines(lines[..|lines| - 1]);
      var s := Strip(lines[|lines| - 1]);
      StripStripped(lines[|lines| - 1]);
      if s != [] then rest + [s] else rest
  }

  /** Every line with something in it is kept, stripped, and nothing else is. */
  lemma {:induction false} StrippedLinesKeeps(lines: seq<string>)
    ensures forall i :: 0 <= i < |lines| && Strip(lines[i]) != [] ==> Strip(lines[i]) in StrippedLines(lines)
    ensures forall k :: 0 <= k < |StrippedLines(lines)| ==>
      exists i :: 0 <= i < |lines| && StrippedLines(lines)[k] == Strip(lines[i])
    decreases |lines|
  {
    hide Strip;
    if lines != [] {
      var init := lines[..|lines| - 1];
      StrippedLinesKeeps(init);
      assert forall i :: 0 <= i < |init| ==> init[i] == lines[i];
      var rest := StrippedLines(init);
      var r := StrippedLines(lines);
      assert r == rest || r == rest + [Strip(lines[|lines| - 1])];
      forall k | 0 <= k < |r| ensures exists i :: 0 <= i < |lines| && r[k] == Strip(lines[i]) {
        if k < |rest| {
          var i :| 0 <= i < |init| && rest[k] == Strip(init[i]);
          assert r[k] == Strip(lines[i]);
        } else {
          assert r[k] == Strip(lines[|lines| - 1]);
        }
      }
    } else {
      assert StrippedLines(lines) == [];
    }
  }

  /** Stripping twice is stripping once. */
  lemma StripStripped(s: string)
    ensures Strip(Strip(s)) == Strip(s)
  {
    var r := Strip(s);
    if r != [] {
      assert TrimLeft(r) == r;
      assert TrimRight(r) == r;
    }
  }

  /**
   * `_read_lines`: the stripped non-empty lines of a text file, or none when
   * it cannot be read (`None`). The text is taken after Python's newline
   * translation, so every line ends at a `\n`.
   */
  function ReadLines(file: Option<string>): (r: seq<string>)
    ensures file.None? ==> r == []
    ensures forall k :: 0 <= k < |r| ==> r[k] != [] && Strip(r[k]) == r[k] && '\n' !in r[k]
  {
    match file
    case None => []
    case Some(text) =>
      var lines := Split(text, '\n');
      var r := StrippedLines(lines);
      StrippedLinesKeeps(lines);
      forall k | 0 <= k < |r| ensures '\n' !in r[k] {
        var i :| 0 <= i < |lines| && r[k] == Strip(lines[i]);
        StripWithin(lines[i]);
      }
      r
  }

  // ---------------------------------------------------------------------
  // _auto_detect_data_files

  /** The lists `detected_files` sorts data files into. */
  datatype Category = Vocab | Txt | Csv | FirstNames | LastNames

  /** Python's `p in s` for strings. */
  predicate Has(s: string, p: string)
  {
    IndexOf(s, p).Some?
  }

  /**
   * The list a file with the lower-cased `name` goes to: a vocabulary, then
   * a text file, then a CSV file by suffix, then a first- or last-name list
   * by substring; `None` when nothing matches.
   */
  function Classify(name: string): (r: Option<Category>)
    ensures r == Some(Vocab) <==> EndsWith(name, ".vocab")
    ensures r == Some(Txt) <==> !EndsWith(name, ".vocab") && EndsWith(name, ".txt")
    ensures r == Some(Csv) <==> !EndsWith(name, ".vocab") && !EndsWith(name, ".txt") && EndsWith(name, ".csv")
    ensures r == Some(FirstNames) <==>
      !EndsWith(name, ".vocab") && !EndsWith(name, ".txt") && !EndsWith(name, ".csv") && Has(name, "first")
    ensures r == Some(LastNames) <==>
      !EndsWith(name, ".vocab") && !EndsWith(name, ".txt") && !EndsWith(name, ".csv")
      && !Has(name, "first") && Has(name, "last")
    ensures r.Some? && r.value in {FirstNames, LastNames} ==> !EndsWith(name, ".csv")
    ensures r == Some(LastNames) ==> !Has(name, "first")
    ensures r.None? <==>
      !EndsWith(name, ".vocab") && !EndsWith(name, ".txt") && !EndsWith(name, ".csv")
      && !Has(name, "first") && !Has(name, "last")
  {
    if EndsWith(name, ".vocab") then Some(Vocab)
    else if EndsWith(name, ".txt") then Some(Txt)
    else if EndsWith(name, ".csv") then Some(Csv)
    else if Has(name, "first") && !EndsWith(name, ".csv") then Some(FirstNames)
    else if Has(name, "last") && !EndsWith(name, ".csv") then Some(LastNames)
    else None
  }

  /** The suffixes decide before the substrings: `first_names.txt` holds templates, not names. */
  lemma SuffixBeforeSubstring(name: string)
    ensures EndsWith(name, ".txt") ==> Classify(name) == Some(Txt)
    ensures EndsWith(name, ".csv") ==> Classify(name) == Some(Csv)
  {
    if EndsWith(name, ".csv") {
      assert name[|name| - 1] == 'v';
    } else if EndsWith(name, ".txt") {
      assert name[|name| - 1] == 't';
    }
  }

  /** An entry of the data directory: its name and whether it is a regular file. */
  type Entry = (string, bool)

  /** The names of the files of one list, in listing order. */
  function Collect(entries: seq<Entry>, c: Category): (r: seq<string>)
    ensures |r| <= |entries|
    ensures forall k :: 0 <= k < |r| ==> exists i :: (0 <= i < |entries| && entries[i].1
      && entries[i].0 == r[k] && Classify(Lower(r[k])) == Some(c))
  {
    if entries == [] then []
    else
      var init := entries[..|entries| - 1];
      var rest := Collect(init, c);
      var (name, isFile) := entries[|entries| - 1];
      assert forall i :: 0 <= i < |init| ==> init[i] == entries[i];
      if isFile && Classify(Lower(name)) == Some(c) then rest + [name] else rest
  }

  /** The files that go to some list. */
  function ClassifiedCount(entries: seq<Entry>): nat
  {
    if entries == [] then 0
    else
      var (name, isFile) := entries[|entries| - 1];
      ClassifiedCount(entries[..|entries| - 1]) + if isFile && Classify(Lower(name)).Some? then 1 else 0
  }

  datatype DetectedFiles = DetectedFiles(
    vocab: seq<string>, txt: seq<string>, csv: seq<string>,
    firstNames: seq<string>, lastNames: seq<string>)
  {
    function Size(): nat { |vocab| + |txt| + |csv| + |firstNames| + |lastNames| }
    function Get(c: Category): seq<string>
    {
      match c
      case Vocab => vocab
      case Txt => txt
      case Csv => csv
      case FirstNames => firstNames
      case LastNames => lastNames
    }
  }

  const NoFiles := DetectedFiles([], [], [], [], [])

  /** The lists after sorting every entry of the listing. */
  function Detected(entries: seq<Entry>): DetectedFiles
  {
    DetectedFiles(Collect(entries, Vocab), Collect(entries, Txt), Collect(entries, Csv),
                  Collect(entries, FirstNames), Collect(entries, LastNames))
  }

  /** The lists after one more entry: appended to the list it selects, if any. */
  function NextDetected(d: DetectedFiles, entry: Entry): DetectedFiles
  {
    var (name, isFile) := entry;
    var c := Classify(Lower(name));
    if !isFile || c.None? then d
    else match c.value
      case Vocab => d.(vocab := d.vocab + [name])
      case Txt => d.(txt := d.txt + [name])
      case Csv => d.(csv := d.csv + [name])
      case FirstNames => d.(firstNames := d.firstNames + [name])
      case LastNames => d.(lastNames := d.lastNames + [name])
  }

  lemma DetectedEmpty()
    ensures Detected([]) == NoFiles
  {
  }

  /** One more entry goes to the end of the list it selects, if any. */
  lemma DetectedSnoc(listing: seq<Entry>, i: nat)
    requires i < |listing|
    ensures Detected(listing[..i + 1]) == NextDetected(Detected(listing[..i]), listing[i])
  {
    assert listing[..i + 1][..i] == listing[..i];
  }

  /** Every file lands in at most one list, and every file that matches lands in one. */
  lemma {:induction false} DetectedPartition(entries: seq<Entry>)
    ensures Detected(entries).Size() == ClassifiedCount(entries)
    decreases |entries|
  {
    if entries != [] {
      DetectedPartition(entries[..|entries| - 1]);
    }
  }

  // ---------------------------------------------------------------------
  // _detect_available_languages

  /** The language codes and the name fragments that reveal them, in the order they are checked. */
  const LanguagePatterns: seq<(string, seq<string>)> := [
    ("en", ["english", "en_", "_en"]),
    ("es", ["spanish", "es_", "_es", "espanol"]),
    ("fr", ["french", "fr_", "_fr", "francais"]),
    ("de", ["german", "de_", "_de", "deutsch"]),
    ("it", ["italian", "it_", "_it", "italiano"]),
    ("pt", ["portuguese", "pt_", "_pt"]),
    ("ru", ["russian", "ru_", "_ru"]),
    ("zh", ["chinese", "zh_", "_zh", "cn_", "_cn"]),
    ("ja", ["japanese", "ja_", "_ja", "jp_", "_jp"]),
    ("ko", ["korean", "ko_", "_ko"])]

  /** `any(pattern in name for pattern in patterns)`. */
  function AnyIn(name: string, patterns: seq<string>): (r: bool)
    ensures r <==> exists j :: 0 <= j < |patterns| && Has(name, patterns[j])
  {
    if patterns == [] then false
    else
      assert forall j :: 1 <= j < |patterns| ==> patterns[j] == patterns[1..][j - 1];
      Has(name, patterns[0]) || AnyIn(name, patterns[1..])
  }

  /** A table of language codes and the name fragments that reveal them. */
  type Patterns = seq<(string, seq<string>)>

  /** The lower-cased name shows language `code`. */
  predicate Shows(table: Patterns, name: string, code: string)
  {
    code in CodesUpTo(table, Lower(name), |table|)
  }

  /** Python's ordering of strings: by code point, a proper prefix first. */
  predicate Less(a: string, b: string)
  {
    if a == [] then b != []
    else if b == [] then false
    else if a[0] != b[0] then a[0] < b[0]
    else Less(a[1..], b[1..])
  }

  predicate StrictlySorted(s: seq<string>)
  {
    forall i, j :: 0 <= i < j < |s| ==> Less(s[i], s[j])
  }

  /** The codes in Python's order. */
  const SortedCodes: seq<string> := ["de", "en", "es", "fr", "it", "ja", "ko", "pt", "ru", "zh"]

  lemma SortedCodesSorted()
    ensures StrictlySorted(SortedCodes) && "en" in SortedCodes
    ensures forall k :: 0 <= k < |LanguagePatterns| ==> LanguagePatterns[k].0 in SortedCodes
  {
    SortedCodesIncreasing();
    hide SortedCodes;
    CodesSorted();
  }

  lemma SortedCodesIncreasing()
    ensures StrictlySorted(SortedCodes)
  {
    hide Less;
    // only "en" and "es" share a first letter
    forall i | 0 <= i < |SortedCodes| ensures |SortedCodes[i]| == 2 && SortedCodes[i][0] as int == [100, 101, 101, 102, 105, 106, 107, 112, 114, 122][i] {
    }
    forall i, j | 0 <= i < j < |SortedCodes| ensures Less(SortedCodes[i], SortedCodes[j]) {
      if i == 1 && j == 2 {
        LessSecond("en", "es");
      } else {
        LessFirst(SortedCodes[i], SortedCodes[j]);
      }
    }
  }

  /** A smaller first character decides the order. */
  lemma LessFirst(a: string, b: string)
    requires a != [] && b != [] && a[0] < b[0]
    ensures Less(a, b)
  {
  }

  /** With equal first characters, the second decides. */
  lemma LessSecond(a: string, b: string)
    requires |a| >= 2 && |b| >= 2 && a[0] == b[0] && a[1] < b[1]
    ensures Less(a, b)
  {
    LessFirst(a[1..], b[1..]);
  }

  lemma CodesSorted()
    ensures "en" in SortedCodes
    ensures forall k :: 0 <= k < |LanguagePatterns| ==> LanguagePatterns[k].0 in SortedCodes
  {
  }

  /** `[c for c in codes if c in s]`. */
  function Keep(codes: seq<string>, s: set<string>): (r: seq<string>)
    ensures forall x :: x in r <==> x in codes && x in s
    ensures StrictlySorted(codes) ==> StrictlySorted(r)
  {
    if codes == [] then []
    else
      var rest := Keep(codes[1..], s);
      assert forall x :: x in codes[1..] ==> x in codes;
      if codes[0] in s then
        assert StrictlySorted(codes) ==> forall x :: x in rest ==> Less(codes[0], x) by {
          if StrictlySorted(codes) {
            forall x | x in rest ensures Less(codes[0], x) {
              var j :| 0 <= j < |codes[1..]| && codes[1..][j] == x;
              assert codes[j + 1] == x;
            }
          }
        }
        [codes[0]] + rest
      else rest
  }

  // ---------------------------------------------------------------------
  // Placeholders

  /** Where the text for a placeholder comes from. */
  datatype Source = FromVocab(vocab: string) | City | Address | State

  /** `placeholder_map`, in its order. */
  const Placeholders: seq<(string, Source)> := [
    ("@DAY-OF-WEEK", FromVocab("day_of_week")),
    ("@PERSON-FAMOUS", FromVocab("person_famous")),
    ("@PERSON-FIRSTNAME", FromVocab("person_famous")),
    ("@PERSON-LASTNAME", FromVocab("person_famous")),
    ("@RESTAURANT-FOOD", FromVocab("restaurant_food")),
    ("@RESTAURANT-NAME", FromVocab("restaurant_name")),
    ("@RESTAURANT-TYPE", FromVocab("restaurant_type")),
    ("@RETAILER", FromVocab("retailer")),
    ("@WEBSITE", FromVocab("website")),
    ("@CITY", City),
    ("@ADDRESS", Address),
    ("@STATE", State)]

  /** The number of `@` signs. */
  function Ats(s: string): nat { multiset(s)['@'] }

  /** Each placeholder starts with `@`, and no vocabulary name holds one. */
  lemma PlaceholderShape(k: nat)
    requires k < |Placeholders|
    ensures |Placeholders[k].0| > 0 && Placeholders[k].0[0] == '@' && Ats(Placeholders[k].0) >= 1
    ensures Placeholders[k].1.FromVocab? ==> '@' !in Placeholders[k].1.vocab
  {
    PlaceholdersStartWithAt();
    VocabNamesPlain();
    var p := Placeholders[k].0;
    assert p == [p[0]] + p[1..];
  }

  lemma PlaceholdersStartWithAt()
    ensures forall k :: 0 <= k < |Placeholders| ==> |Placeholders[k].0| > 0 && Placeholders[k].0[0] == '@'
  {
    hide Placeholders;
    PlaceholdersListed();
  }

  lemma VocabNamesPlain()
    ensures forall k :: 0 <= k < |Placeholders| && Placeholders[k].1.FromVocab? ==> '@' !in Placeholders[k].1.vocab
  {
    hide Placeholders;
    PlaceholdersListed();
    RestaurantNamesPlain();
    assert '@' !in "day_of_week" && '@' !in "person_famous";
    assert '@' !in "retailer" && '@' !in "website";
  }

  lemma RestaurantNamesPlain()
    ensures '@' !in "restaurant_food" && '@' !in "restaurant_name" && '@' !in "restaurant_type"
  {
  }

  lemma PlaceholdersListed()
    ensures |Placeholders| == 12
    ensures Placeholders[0] == ("@DAY-OF-WEEK", FromVocab("day_of_week"))
    ensures Placeholders[1] == ("@PERSON-FAMOUS", FromVocab("person_famous"))
    ensures Placeholders[2] == ("@PERSON-FIRSTNAME", FromVocab("person_famous"))
    ensures Placeholders[3] == ("@PERSON-LASTNAME", FromVocab("person_famous"))
    ensures Placeholders[4] == ("@RESTAURANT-FOOD", FromVocab("restaurant_food"))
    ensures Placeholders[5] == ("@RESTAURANT-NAME", FromVocab("restaurant_name"))
    ensures Placeholders[6] == ("@RESTAURANT-TYPE", FromVocab("restaurant_type"))
    ensures Placeholders[7] == ("@RETAILER", FromVocab("retailer"))
    ensures Placeholders[8] == ("@WEBSITE", FromVocab("website"))
    ensures Placeholders[9] == ("@CITY", City)
    ensures Placeholders[10] == ("@ADDRESS", Address)
    ensures Placeholders[11] == ("@STATE", State)
  {
  }

  /** Replacing an occurrence of a placeholder by text without `@` removes an `@`. */
  lemma ReplaceFirstAts(s: string, k: nat, rep: string)
    requires k < |Placeholders| && Has(s, Placeholders[k].0) && '@' !in rep
    ensures Ats(ReplaceFirst(s, Placeholders[k].0, rep)) < Ats(s)
  {
    var p := Placeholders[k].0;
    var i := IndexOf(s, p).value;
    assert s == s[..i] + p + s[i + |p|..];
    PlaceholderShape(k);
    assert multiset(rep)['@'] == 0;
  }

  /** A CSV row read by `csv.DictReader`. */
  type Row = Dict<string, string>

  /** `random.choice(s)`. */
  function Choice<T>(t: Tape, s: seq<T>): (r: (T, Tape))
    requires s != []
    ensures r.0 in s && r.1 == Rest(t)
  {
    var (i, t1) := DrawBelow(t, |s|);
    (s[i], t1)
  }

  class PhraseGenerator {
    var vocabularies: Dict<string, seq<string>>
    var queries: seq<string>
    var sentences: seq<string>
    var storySentences: seq<string>
    var addresses: seq<Row>
    var cities: seq<Row>
    var states: seq<Row>
    var streetNames: seq<string>
    var availableLanguages: seq<string>
    var detectedFiles: DetectedFiles

    /**
     * The generator over loaded data: the listing of the data directory is
     * classified and searched for languages; the files' contents are given.
     */
    constructor (listing: seq<Entry>, vocabularies: Dict<string, seq<string>>, queries: seq<string>,
                 sentences: seq<string>, storySentences: seq<string>, addresses: seq<Row>,
                 cities: seq<Row>, states: seq<Row>, streetNames: seq<string>)
      ensures this.vocabularies == vocabularies && this.queries == queries
      ensures this.sentences == sentences && this.storySentences == storySentences
      ensures this.addresses == addresses && this.cities == cities
      ensures this.states == states && this.streetNames == streetNames
      ensures detectedFiles == Detected(listing)
      ensures forall c :: c in availableLanguages <==> Available(Names(listing), c)
    {
      this.vocabularies := vocabularies;
      this.queries := queries;
      this.sentences := sentences;
      this.storySentences := storySentences;
      this.addresses := addresses;
      this.cities := cities;
      this.states := states;
      this.streetNames := streetNames;
      availableLanguages := [];
      detectedFiles := NoFiles;
      new;
      AutoDetectDataFiles(listing);
      DetectAvailableLanguages(Names(listing));
    }

    /**
     * `_auto_detect_data_files`: every regular file of the listing goes to
     * the list its lower-cased name selects, in listing order. A missing
     * directory lists nothing.
     */
    method AutoDetectDataFiles(listing: seq<Entry>)
      modifies this
      ensures detectedFiles == Detected(listing)
      ensures vocabularies == old(vocabularies) && queries == old(queries) && availableLanguages == old(availableLanguages)
      ensures sentences == old(sentences) && storySentences == old(storySentences)
      ensures addresses == old(addresses) && cities == old(cities) && states == old(states)
      ensures streetNames == old(streetNames)
    {
      detectedFiles := ClassifyListing(listing);
    }

    /** The loop of `_auto_detect_data_files`, which fills the lists one entry at a time. */
    static method ClassifyListing(listing: seq<Entry>) returns (detected: DetectedFiles)
      ensures detected == Detected(listing)
    {
      hide Detected;
      detected := NoFiles;
      DetectedEmpty();
      for i := 0 to |listing|
        invariant detected == Detected(listing[..i])
      {
        hide Lower, EndsWith, Has;
        assert Detected(listing[..i + 1]) == NextDetected(detected, listing[i]) by { DetectedSnoc(listing, i); }
        var (entry, isFile) := listing[i];
        if isFile {
          var name := Lower(entry);
          if EndsWith(name, ".vocab") {
            assert Classify(name) == Some(Vocab);
            detected := detected.(vocab := detected.vocab + [entry]);
          } else if EndsWith(name, ".txt") {
            assert Classify(name) == Some(Txt);
            detected := detected.(txt := detected.txt + [entry]);
          } else if EndsWith(name, ".csv") {
            assert Classify(name) == Some(Csv);
            detected := detected.(csv := detected.csv + [entry]);
          } else if Has(name, "first") && !EndsWith(name, ".csv") {
            assert Classify(name) == Some(FirstNames);
            detected := detected.(firstNames := detected.firstNames + [entry]);
          } else if Has(name, "last") && !EndsWith(name, ".csv") {
            assert Classify(name) == Some(LastNames);
            detected := detected.(lastNames := detected.lastNames + [entry]);
          } else {
            assert Classify(name).None?;
          }
        }
      }
      assert listing[..|listing|] == listing;
    }

    /**
     * `_detect_available_languages`: the codes some entry's name shows, in
     * sorted order without repetitions, or English alone when none does.
     */
    method DetectAvailableLanguages(names: seq<string>)
      modifies this
      ensures forall c :: c in availableLanguages <==> Available(names, c)
      ensures StrictlySorted(availableLanguages) && availableLanguages != []
      ensures vocabularies == old(vocabularies) && queries == old(queries) && detectedFiles == old(detectedFiles)
      ensures sentences == old(sentences) && storySentences == old(storySentences)
      ensures addresses == old(addresses) && cities == old(cities) && states == old(states)
      ensures streetNames == old(streetNames)
    {
      hide LanguagePatterns, SortedCodes;
      var languages: set<string> := {};
      for i := 0 to |names|
        invariant languages == ShownUpTo(LanguagePatterns, names, i)
      {
        var name := Lower(names[i]);
        for k := 0 to |LanguagePatterns|
          invariant languages == ShownUpTo(LanguagePatterns, names, i) + CodesUpTo(LanguagePatterns, name, k)
        {
          if AnyIn(name, LanguagePatterns[k].1) {
            languages := languages + {LanguagePatterns[k].0};
          }
        }
      }
      ShownUpToAll(LanguagePatterns, names);
      SortedCodesSorted();
      if languages == {} {
        languages := {"en"};
      }
      SortedCodesSorted();
      availableLanguages := Keep(SortedCodes, languages);
    }

    // -------------------------------------------------------------------
    // Drawing replacements

    /** No text a placeholder can be replaced by contains `@`. */
    predicate Clean()
      reads this
    {
      && (forall i, j :: 0 <= i < |vocabularies| && 0 <= j < |vocabularies[i].1| ==> '@' !in vocabularies[i].1[j])
      && (forall i, j :: 0 <= i < |addresses| && 0 <= j < |addresses[i]| ==> '@' !in addresses[i][j].1)
      && (forall i, j :: 0 <= i < |cities| && 0 <= j < |cities[i]| ==> '@' !in cities[i][j].1)
      && (forall i, j :: 0 <= i < |states| && 0 <= j < |states[i]| ==> '@' !in states[i][j].1)
      && (forall i :: 0 <= i < |streetNames| ==> '@' !in streetNames[i])
    }

    /**
     * `get_random_from_vocab`: an entry of the vocabulary, or the name in
     * brackets when the vocabulary is missing or empty.
     */
    function RandomFromVocab(t: Tape, vocabName: string): (r: (string, Tape))
      reads this
      ensures DictGet(vocabularies, vocabName, []) == [] ==> r == ("[" + vocabName + "]", t)
      ensures DictGet(vocabularies, vocabName, []) != [] ==>
        r.0 in DictGet(vocabularies, vocabName, []) && r.1 == Rest(t)
      ensures Clean() && '@' !in vocabName ==> '@' !in r.0
    {
      var vocab := DictGet(vocabularies, vocabName, []);
      if vocab != [] then
        DictGetIn(vocabularies, vocabName, []);
        Choice(t, vocab)
      else ("[" + vocabName + "]", t)
    }

    /** A row value, or the default when the row lacks the column. */
    static function Column(row: Row, column: string, default: string): (r: string)
      ensures '@' !in default && (forall j :: 0 <= j < |row| ==> '@' !in row[j].1) ==> '@' !in r
    {
      DictGetIn(row, column, default);
      DictGet(row, column, default)
    }

    /** `get_random_city`. */
    function RandomCity(t: Tape): (r: (string, Tape))
      reads this
      ensures cities == [] ==> r == ("San Francisco", t)
      ensures Clean() ==> '@' !in r.0
    {
      if cities != [] then
        var (row, t1) := Choice(t, cities);
        (Column(row, "city", "San Francisco"), t1)
      else ("San Francisco", t)
    }

    /** `get_random_state`. */
    function RandomState(t: Tape): (r: (string, Tape))
      reads this
      ensures states == [] ==> r == ("California", t)
      ensures Clean() ==> '@' !in r.0
    {
      if states != [] then
        var (row, t1) := Choice(t, states);
        (Column(row, "state", "California"), t1)
      else ("California", t)
    }

    /**
     * `get_random_address`: a whole address row; else a number, a street,
     * a city and a state drawn apart; else a fixed address.
     */
    function RandomAddress(t: Tape): (r: (string, Tape))
      reads this
      ensures addresses == [] && (streetNames == [] || cities == [] || states == []) ==>
        r == ("123 Main St, Anytown, CA", t)
      ensures Clean() ==> '@' !in r.0
    {
      if addresses != [] then
        var (row, t1) := Choice(t, addresses);
        (Column(row, "address", "") + ", " + Column(row, "city", "") + ", " + Column(row, "state", ""), t1)
      else if streetNames != [] && cities != [] && states != [] then
        var (street, t1) := Choice(t, streetNames);
        var (number, t2) := DrawInt(t1, 100, 9999);
        var (city, t3) := Choice(t2, cities);
        var (state, t4) := Choice(t3, states);
        IntToStringDigits(number);
        (IntToString(number) + " " + street + ", " + Column(city, "city", "") + ", " + Column(state, "state", ""), t4)
      else ("123 Main St, Anytown, CA", t)
    }

    /** The text one occurrence of placeholder `k` is replaced by. */
    function Replacement(t: Tape, k: nat): (r: (string, Tape))
      requires k < |Placeholders|
      reads this
      ensures Clean() ==> '@' !in r.0
    {
      PlaceholderShape(k);
      match Placeholders[k].1
      case City => RandomCity(t)
      case Address => RandomAddress(t)
      case State => RandomState(t)
      case FromVocab(v) => RandomFromVocab(t, v)
    }

    /**
     * The `while placeholder in result` loop for placeholder `k`: replace
     * its first occurrence until none is left. Each round removes one `@`.
     */
    function ExpandPlaceholder(t: Tape, s: string, k: nat): (r: (string, Tape))
      requires k < |Placeholders| && Clean()
      reads this
      ensures !Has(r.0, Placeholders[k].0)
      ensures Ats(r.0) <= Ats(s)
      ensures !Has(s, Placeholders[k].0) ==> r == (s, t)
      decreases Ats(s)
    {
      var p := Placeholders[k].0;
      if Has(s, p) then
        var (rep, t1) := Replacement(t, k);
        ReplaceFirstAts(s, k, rep);
        ExpandPlaceholder(t1, ReplaceFirst(s, p, rep), k)
      else (s, t)
    }

    /** The placeholders from `k` on, each in turn. */
    function ExpandFrom(t: Tape, s: string, k: nat): (r: (string, Tape))
      requires k <= |Placeholders| && Clean()
      reads this
      ensures Ats(r.0) <= Ats(s)
      ensures '@' !in s ==> r == (s, t)
      decreases |Placeholders| - k
    {
      if k == |Placeholders| then (s, t)
      else
        var (s1, t1) := ExpandPlaceholder(t, s, k);
        NoAtNoPlaceholder(s, k);
        ExpandFrom(t1, s1, k + 1)
    }

    /**
     * `expand_template`: every placeholder in map order, each replaced one
     * occurrence at a time until it no longer occurs. It ends because no
     * replacement brings an `@` with it.
     */
    method ExpandTemplate(rng: Random, template: string) returns (result: string)
      requires Clean()
      modifies rng
      ensures (result, rng.tape) == ExpandFrom(old(rng.tape), template, 0)
    {
      hide Replacement, Placeholders, Clean;
      result := template;
      ghost var goal := ExpandFrom(rng.tape, template, 0);
      for k := 0 to |Placeholders|
        invariant ExpandFrom(rng.tape, result, k) == goal
      {
        var placeholder := Placeholders[k].0;
        while Has(result, placeholder)
          invariant var (s1, t1) := ExpandPlaceholder(rng.tape, result, k); ExpandFrom(t1, s1, k + 1) == goal
          decreases Ats(result)
        {
          var (replacement, t1) := Replacement(rng.tape, k);
          ReplaceFirstAts(result, k, replacement);
          result := ReplaceFirst(result, placeholder, replacement);
          rng.tape := t1;
        }
      }
    }

    /** A template chosen from `templates` and expanded, or the fallback text when there are none. */
    function GenerateFrom(t: Tape, templates: seq<string>, fallback: string): (r: (string, Tape))
      requires Clean()
      reads this
      ensures templates == [] ==> r == (fallback, t)
      ensures templates != [] ==>
        exists i :: 0 <= i < |templates| && r == ExpandFrom(Rest(t), templates[i], 0)
    {
      if templates != [] then
        var (i, t1) := DrawBelow(t, |templates|);
        ExpandFrom(t1, templates[i], 0)
      else (fallback, t)
    }

    /** `generate_query`. */
    function GenerateQuery(t: Tape): (r: (string, Tape))
      requires Clean()
      reads this
      ensures queries == [] ==> r == ("search query", t)
    {
      GenerateFrom(t, queries, "search query")
    }

    /** `generate_sentence`. */
    function GenerateSentence(t: Tape): (r: (string, Tape))
      requires Clean()
      reads this
      ensures sentences == [] ==> r == ("This is a sample sentence.", t)
    {
      GenerateFrom(t, sentences, "This is a sample sentence.")
    }

    /** `generate_story_sentence`. */
    function GenerateStorySentence(t: Tape): (r: (string, Tape))
      requires Clean()
      reads this
      ensures storySentences == [] ==> r == ("Once upon a time, there was a story.", t)
    {
      GenerateFrom(t, storySentences, "Once upon a time, there was a story.")
    }

    /** One sentence of a document: a query 40% of the time, else a sentence 60% of the rest, else a story sentence. */
    function NextSentence(t: Tape): (r: (string, Tape))
      requires Clean()
      reads this
    {
      var (query, t1) := DrawChance(t, 40);
      if query then GenerateQuery(t1)
      else
        var (plain, t2) := DrawChance(t1, 60);
        if plain then GenerateSentence(t2) else GenerateStorySentence(t2)
    }

    /**
     * The accumulation loop of `generate_realistic_document_content` from
     * the text gathered so far: sentences separated by blank lines until
     * the text reaches the length.
     */
    function DocumentParts(t: Tape, contentLength: int, acc: string): (r: (string, Tape))
      requires Clean()
      reads this
      ensures |r.0| >= contentLength
      ensures StartsWith(r.0, acc)
      ensures |acc| >= contentLength ==> r == (acc, t)
      decreases contentLength - |acc|
    {
      if |acc| >= contentLength then (acc, t)
      else
        var (sentence, t1) := NextSentence(t);
        var acc1 := acc + sentence;
        if |acc1| < contentLength then
          var r := DocumentParts(t1, contentLength, acc1 + "\n\n");
          assert (acc1 + "\n\n")[..|acc|] == acc;
          r
        else
          assert acc1[..|acc|] == acc;
          (acc1, t1)
    }

    /**
     * `generate_realistic_document_content`: exactly `contentLength`
     * characters of generated text, and nothing, without drawing, for a
     * length of zero or less.
     */
    function DocumentContent(t: Tape, contentLength: int): (r: (string, Tape))
      requires Clean()
      reads this
      ensures contentLength > 0 ==> |r.0| == contentLength
      ensures contentLength <= 0 ==> r == ("", t)
    {
      var (joined, t1) := DocumentParts(t, contentLength, "");
      (if |joined| > contentLength then SliceTo(joined, contentLength) else joined, t1)
    }

    /** The loop itself, over the list of parts it joins at the end. */
    method GenerateRealisticDocumentContent(rng: Random, contentLength: int) returns (result: string)
      requires Clean()
      modifies rng
      ensures (result, rng.tape) == DocumentContent(old(rng.tape), contentLength)
    {
      var contentParts: seq<string> := [];
      var currentLength := 0;
      ghost var goal := DocumentParts(rng.tape, contentLength, "");
      while currentLength < contentLength
        invariant currentLength == |Flatten(contentParts)|
        invariant DocumentParts(rng.tape, contentLength, Flatten(contentParts)) == goal
        decreases contentLength - currentLength
      {
        var (sentence, t1) := NextSentence(rng.tape);
        rng.tape := t1;
        contentParts := contentParts + [sentence];
        currentLength := currentLength + |sentence|;
        if currentLength < contentLength {
          contentParts := contentParts + ["\n\n"];
          currentLength := currentLength + 2;
        }
      }
      result := Flatten(contentParts);
      if |result| > contentLength {
        result := SliceTo(result, contentLength);
      }
    }
  }

  lemma IntToStringDigits(n: int)
    requires n >= 0
    ensures '@' !in IntToString(n)
  {
    var s := NatToString(n);
    assert forall k :: 0 <= k < |s| ==> IsDigit(s[k]);
  }

  /** A string that holds a placeholder holds an `@`. */
  lemma NoAtNoPlaceholder(s: string, k: nat)
    requires k < |Placeholders|
    ensures Has(s, Placeholders[k].0) ==> '@' in s
  {
    var p := Placeholders[k].0;
    if Has(s, p) {
      var i := IndexOf(s, p).value;
      PlaceholderShape(k);
      assert s[i..i + |p|][0] == '@';
    }
  }

  /** The names of the entries of a listing, directories included. */
  function Names(listing: seq<Entry>): (r: seq<string>)
    ensures |r| == |listing| && forall i :: 0 <= i < |listing| ==> r[i] == listing[i].0
  {
    seq(|listing|, i requires 0 <= i < |listing| => listing[i].0)
  }

  /** The codes whose fragments occur in `name`, among the first `k`. */
  function CodesUpTo(table: Patterns, name: string, k: nat): set<string>
    requires k <= |table|
  {
    if k == 0 then {}
    else CodesUpTo(table, name, k - 1) + if AnyIn(name, table[k - 1].1) then {table[k - 1].0} else {}
  }

  /** A code is gathered exactly when one of its fragments occurs in the name. */
  lemma {:induction false} CodesUpToSpec(table: Patterns, name: string, k: nat)
    requires k <= |table|
    ensures forall c :: c in CodesUpTo(table, name, k) <==>
      exists k' :: 0 <= k' < k && table[k'].0 == c && AnyIn(name, table[k'].1)
  {
    if k > 0 {
      CodesUpToSpec(table, name, k - 1);
    }
  }

  /** The codes the first `n` names show, as the detection loop gathers them. */
  function ShownUpTo(table: Patterns, names: seq<string>, n: nat): set<string>
    requires n <= |names|
  {
    if n == 0 then {}
    else ShownUpTo(table, names, n - 1) + CodesUpTo(table, Lower(names[n - 1]), |table|)
  }

  /** Over all the names: a code is gathered exactly when some name shows it. */
  lemma {:induction false} ShownUpToSpec(table: Patterns, names: seq<string>, n: nat)
    requires n <= |names|
    ensures forall c :: c in ShownUpTo(table, names, n) <==> exists i :: 0 <= i < n && Shows(table, names[i], c)
  {
    if n > 0 {
      ShownUpToSpec(table, names, n - 1);
    }
  }

  /** Over all the names: what some name shows, each a code of the table, and nothing exactly when no fragment occurs. */
  lemma ShownUpToAll(table: Patterns, names: seq<string>)
    ensures forall c :: c in ShownUpTo(table, names, |names|) <==> ShownBy(table, names, c)
    ensures forall c :: c in ShownUpTo(table, names, |names|) ==> exists k :: 0 <= k < |table| && table[k].0 == c
    ensures ShownUpTo(table, names, |names|) == {} <==> NoneShown(table, names)
  {
    ShownUpToSpec(table, names, |names|);
    forall i | 0 <= i < |names| {
      CodesUpToSpec(table, Lower(names[i]), |table|);
    }
    if !NoneShown(table, names) {
      var i :| 0 <= i < |names| && CodesUpTo(table, Lower(names[i]), |table|) != {};
      var c :| c in CodesUpTo(table, Lower(names[i]), |table|);
      assert Shows(table, names[i], c);
    }
  }

  /** Some name shows language `code`. */
  ghost predicate ShownBy(table: Patterns, names: seq<string>, code: string)
  {
    exists i :: 0 <= i < |names| && Shows(table, names[i], code)
  }

  /** No name shows any language. */
  predicate NoneShown(table: Patterns, names: seq<string>)
  {
    forall i :: 0 <= i < |names| ==> CodesUpTo(table, Lower(names[i]), |table|) == {}
  }

  /** A language is available when a name shows it, and English is when no name shows any. */
  ghost predicate Available(names: seq<string>, code: string)
  {
    ShownBy(LanguagePatterns, names, code) || (code == "en" && NoneShown(LanguagePatterns, names))
  }
}
