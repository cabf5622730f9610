/**
 * The generator's settings and its planner (settings.py): size and list
 * parsing, the configuration warnings, the fill-drive arithmetic, the file
 * plan and the plan summary. The free disk space is a parameter; random
 * draws come from an `Oracle.Random`.
 */
module Settings {
  import opened Common
  import opened Oracle

  datatype ChaffSettings = ChaffSettings(
    targetDirectory: string,
    deleteAfterCompletion: bool,
    fillDrive: bool,
    minFileSize: int,
    maxFileSize: int,
    minimumRemainingDiskSpace: int,
    minFileCount: int,
    maxFileCount: int,
    chaffFileTypes: seq<string>,
    includeLanguages: seq<string>)

  /** One file to generate. */
  datatype FileGenerationPlan = FileGenerationPlan(
    fileType: string, sizeBytes: int, language: string, filename: string)

  // ---------------------------------------------------------------------
  // _parse_size and _parse_list

  predicate AllDigits(s: string) { forall k :: 0 <= k < |s| ==> IsDigit(s[k]) }

  /**
   * `float(s)` on an integer literal: optional surrounding white space, an
   * optional sign, one or more ASCII digits. `None` is the ValueError
   * `float` raises, and also every form this model leaves out: fractions,
   * exponents, underscores between digits and non-ASCII digits. Magnitudes
   * above 2**53 are kept exact where `float` rounds them.
   */
  function ParseMagnitude(s: string): Option<int>
  {
    var t := Strip(s);
    if t != [] && (t[0] == '+' || t[0] == '-') then
      var d := t[1..];
      if d != [] && AllDigits(d) then
        var v: int := DigitsValue(d);
        Some(if t[0] == '-' then -v else v)
      else None
    else if t != [] && AllDigits(t) then Some(DigitsValue(t))
    else None
  }

  const KB: nat := 1024
  const MB: nat := 1024 * 1024
  const GB: nat := 1024 * 1024 * 1024

  /** The factor a two-letter unit stands for; 1 for anything else. */
  function UnitFactor(unit: string): nat
  {
    if unit == "KB" then KB else if unit == "MB" then MB else if unit == "GB" then GB else 1
  }

  /** `_parse_size`: upper-case, strip, then read a magnitude with an optional KB/MB/GB unit. */
  function ParseSize(sizeStr: string): (r: Option<int>)
    ensures Strip(Upper(sizeStr)) == [] ==> r.None?
    ensures var s := Strip(Upper(sizeStr));
      r.Some? && |s| >= 2 && UnitFactor(s[|s| - 2..]) != 1 ==> r.value % KB == 0
  {
    SizeOf(Strip(Upper(sizeStr)))
  }

  /** The size a stripped, upper-case size string stands for; a unit makes it a whole number of KB. */
  function SizeOf(s: string): (r: Option<int>)
    ensures s == [] ==> r.None?
    ensures r.Some? && |s| >= 2 && UnitFactor(s[|s| - 2..]) != 1 ==> r.value % KB == 0
  {
    var factor := if |s| >= 2 then UnitFactor(s[|s| - 2..]) else 1;
    var number := if factor == 1 then s else s[..|s| - 2];
    match ParseMagnitude(number)
    case None => None
    case Some(m) =>
      assert factor != 1 ==> (m * factor) % KB == 0 by {
        if factor != 1 { WholeKilobytes(m, factor); }
      }
      Some(m * factor)
  }

  /** A magnitude scaled by a unit is a multiple of 1024. */
  lemma WholeKilobytes(m: int, factor: nat)
    requires factor == KB || factor == MB || factor == GB
    ensures (m * factor) % KB == 0
  {
    var q := factor / KB;
    assert factor == q * KB;
    assert m * factor == (m * q) * KB;
  }

  lemma StripPlain(s: string)
    requires s != [] && !IsSpace(s[0]) && !IsSpace(s[|s| - 1])
    ensures Strip(s) == s
  {
  }

  lemma UpperDigits(s: string)
    requires AllDigits(s)
    ensures Upper(s) == s
  {
  }

  lemma UpperAppend(a: string, b: string)
    ensures Upper(a + b) == Upper(a) + Upper(b)
  {
  }

  lemma MagnitudeDigits(d: string)
    requires d != [] && AllDigits(d)
    ensures ParseMagnitude(d) == Some(DigitsValue(d))
  {
    StripPlain(d);
  }

  lemma CleanSizeString(digits: string, unit: string)
    requires digits != [] && AllDigits(digits) && |unit| == 2
    requires !IsSpace(Upper(unit)[1])
    ensures Strip(Upper(digits + unit)) == digits + Upper(unit)
  {
    var s := digits + Upper(unit);
    UpperAppend(digits, unit);
    UpperDigits(digits);
    assert s[0] == digits[0] && s[|s| - 1] == Upper(unit)[1];
    StripPlain(s);
  }

  lemma SizeOfUnit(digits: string, u: string)
    requires digits != [] && AllDigits(digits)
    requires u == "KB" || u == "MB" || u == "GB"
    ensures SizeOf(digits + u) == Some(DigitsValue(digits) * UnitFactor(u))
  {
    var s := digits + u;
    assert s[|s| - 2..] == u;
    assert s[..|s| - 2] == digits;
    assert UnitFactor(u) != 1;
    MagnitudeDigits(digits);
  }

  /** A size written as digits and a unit in any letter case is the number times the unit. */
  lemma ParseSizeWithUnit(n: nat, unit: string)
    requires Upper(unit) == "KB" || Upper(unit) == "MB" || Upper(unit) == "GB"
    ensures ParseSize(NatToString(n) + unit) == Some(n * UnitFactor(Upper(unit)))
  {
    var digits := NatToString(n);
    CleanSizeString(digits, unit);
    SizeOfUnit(digits, Upper(unit));
    NatToStringValue(n);
  }

  /** A size without a unit is a number of bytes. */
  lemma ParseSizeBytes(n: nat)
    ensures ParseSize(NatToString(n)) == Some(n)
  {
    var digits := NatToString(n);
    UpperDigits(digits);
    StripPlain(digits);
    if |digits| >= 2 {
      var tail := digits[|digits| - 2..];
      assert IsDigit(tail[1]);
      assert UnitFactor(tail) == 1;
    }
    MagnitudeDigits(digits);
    NatToStringValue(n);
  }

  /** The stripped, non-empty items of a list, in order. */
  function StrippedItems(items: seq<string>): (r: seq<string>)
    ensures |r| <= |items|
    ensures forall k :: 0 <= k < |r| ==> r[k] != [] && !IsSpace(r[k][0]) && !IsSpace(r[k][|r[k]| - 1])
  {
    if items == [] then []
    else
      var s := Strip(items[0]);
      (if s != [] then [s] else []) + StrippedItems(items[1..])
  }

  /** Every item that is not blank contributes its stripped form... */
  lemma {:induction false} StrippedItemsComplete(items: seq<string>)
    ensures forall i :: 0 <= i < |items| && Strip(items[i]) != [] ==> Strip(items[i]) in StrippedItems(items)
    decreases |items|
  {
    if items != [] {
      var tail := items[1..];
      StrippedItemsComplete(tail);
      var s := Strip(items[0]);
      var head: seq<string> := if s != [] then [s] else [];
      assert StrippedItems(items) == head + StrippedItems(tail);
      hide StrippedItems, Strip;
      forall i | 0 <= i < |items| && Strip(items[i]) != []
        ensures Strip(items[i]) in head + StrippedItems(tail)
      {
        if i > 0 {
          assert items[i] == tail[i - 1];
        }
      }
    }
  }

  /** Every item stripped, blank ones included. */
  function StripAll(items: seq<string>): (r: seq<string>)
    ensures |r| == |items|
    ensures forall i :: 0 <= i < |items| ==> r[i] == Strip(items[i])
  {
    if items == [] then [] else [Strip(items[0])] + StripAll(items[1..])
  }

  /** ...and nothing else is kept. */
  lemma {:induction false} StrippedItemsSound(items: seq<string>)
    ensures forall x :: x in StrippedItems(items) ==> x in StripAll(items)
    decreases |items|
  {
    if items != [] {
      var tail := items[1..];
      StrippedItemsSound(tail);
      var s := Strip(items[0]);
      var head: seq<string> := if s != [] then [s] else [];
      assert StrippedItems(items) == head + StrippedItems(tail);
      assert StripAll(items) == [s] + StripAll(tail);
    }
  }

  /** The items of a concatenation are the items of each part, in order. */
  lemma {:induction false} StrippedItemsAppend(a: seq<string>, b: seq<string>)
    ensures StrippedItems(a + b) == StrippedItems(a) + StrippedItems(b)
    decreases |a|
  {
    if a != [] {
      assert (a + b)[0] == a[0];
      assert (a + b)[1..] == a[1..] + b;
      StrippedItemsAppend(a[1..], b);
    } else {
      assert a + b == b;
    }
  }

  /** `_parse_list`: the comma-separated items, stripped, empty ones dropped. */
  function ParseList(listStr: string): (r: seq<string>)
    ensures forall k :: 0 <= k < |r| ==> r[k] != [] && !IsSpace(r[k][0]) && !IsSpace(r[k][|r[k]| - 1])
  {
    StrippedItems(Split(listStr, ','))
  }

  /**
   * Each comma-separated piece of the string that is not blank is in the
   * list, stripped; every item of the list is such a piece and holds no comma.
   */
  lemma ParseListKeeps(listStr: string)
    ensures var pieces := Split(listStr, ',');
      var r := ParseList(listStr);
      (forall i :: 0 <= i < |pieces| && Strip(pieces[i]) != [] ==> Strip(pieces[i]) in r)
      && (forall x :: x in r ==> x in StripAll(pieces))
      && (forall x :: x in r ==> ',' !in x)
  {
    var pieces := Split(listStr, ',');
    var r := ParseList(listStr);
    StrippedItemsComplete(pieces);
    StrippedItemsSound(pieces);
    forall x | x in r ensures ',' !in x {
      var all := StripAll(pieces);
      var i :| 0 <= i < |all| && all[i] == x;
      StripWithin(pieces[i]);
    }
  }

  /**
   * Pieces joined by commas parse to their stripped, non-blank forms in
   * order, whatever spaces surround them and however many are blank.
   */
  lemma ParseListPieces(pieces: seq<string>)
    requires pieces != []
    requires forall k :: 0 <= k < |pieces| ==> ',' !in pieces[k]
    ensures ParseList(Join(pieces, [','])) == StrippedItems(pieces)
  {
    SplitJoin(pieces, ',');
  }

  predicate PlainItem(s: string)
  {
    s != [] && ',' !in s && !IsSpace(s[0]) && !IsSpace(s[|s| - 1])
  }

  lemma {:induction false} StrippedPlain(items: seq<string>)
    requires forall k :: 0 <= k < |items| ==> PlainItem(items[k])
    ensures StrippedItems(items) == items
  {
    if items != [] {
      StripPlain(items[0]);
      StrippedPlain(items[1..]);
      assert items == [items[0]] + items[1..];
    }
  }

  /** Joining plain items with commas and parsing the result gives the items back. */
  lemma ParseListJoin(items: seq<string>)
    requires forall k :: 0 <= k < |items| ==> PlainItem(items[k])
    ensures ParseList(Join(items, [','])) == items
  {
    if items == [] {
      assert Split([], ',') == [[]];
      assert Strip([]) == [];
    } else {
      SplitJoin(items, ',');
      StrippedPlain(items);
    }
  }

  // ---------------------------------------------------------------------
  // validate_settings

  datatype Warning =
    | SizeRangeInverted
    | CountRangeInverted
    | NotEnoughSpace(available: int, reserved: int, usable: int, needed: int)
    | MissingTarget(path: string)

  /** `validate_settings`, with the free space and the directory's existence as parameters. */
  function ValidateSettings(s: ChaffSettings, availableSpace: int, targetExists: bool): (w: seq<Warning>)
    ensures SizeRangeInverted in w <==> s.minFileSize >= s.maxFileSize
    ensures CountRangeInverted in w <==> s.minFileCount >= s.maxFileCount
    ensures var usable := availableSpace - s.minimumRemainingDiskSpace;
      var needed := s.minFileCount * s.minFileSize;
      NotEnoughSpace(availableSpace, s.minimumRemainingDiskSpace, Max(0, usable), needed) in w <==> usable < needed
    ensures MissingTarget(s.targetDirectory) in w <==> !targetExists
    ensures |w| <= 4
  {
    var usable := availableSpace - s.minimumRemainingDiskSpace;
    var needed := s.minFileCount * s.minFileSize;
    (if s.minFileSize >= s.maxFileSize then [SizeRangeInverted] else [])
    + (if s.minFileCount >= s.maxFileCount then [CountRangeInverted] else [])
    + (if usable < needed
       then [NotEnoughSpace(availableSpace, s.minimumRemainingDiskSpace, Max(0, usable), needed)]
       else [])
    + (if !targetExists then [MissingTarget(s.targetDirectory)] else [])
  }

  // ---------------------------------------------------------------------
  // calculate_fill_drive_parameters

  datatype PlanError =
    | ZeroAverageSize     // ZeroDivisionError: (min + max) // 2 == 0
    | EmptyCountRange     // randint(min_file_count, max_file_count) on an empty range
    | EmptySizeRange      // randint(min_file_size, max_file_size) on an empty range
    | NoFileTypes         // random.choice on an empty type list
    | NoLanguages         // random.choice on an empty language list

  /** `calculate_fill_drive_parameters`: (file count, average size), or the ZeroDivisionError. */
  function FillDriveParameters(s: ChaffSettings, availableSpace: int): (r: Result<(int, int), PlanError>)
    ensures availableSpace - s.minimumRemainingDiskSpace <= 0 ==> r == Ok((0, 0))
    ensures r.Err? <==> availableSpace - s.minimumRemainingDiskSpace > 0
                        && FloorDiv(s.minFileSize + s.maxFileSize, 2) == 0
    ensures r.Ok? && availableSpace - s.minimumRemainingDiskSpace > 0 && s.minFileCount <= s.maxFileCount
      ==> s.minFileCount <= r.value.0 <= s.maxFileCount
    ensures r.Ok? && r.value.0 > 0 && s.minFileSize <= s.maxFileSize
      ==> s.minFileSize <= r.value.1 <= s.maxFileSize
  {
    var usable := availableSpace - s.minimumRemainingDiskSpace;
    if usable <= 0 then Ok((0, 0))
    else
      var avgTarget := FloorDiv(s.minFileSize + s.maxFileSize, 2);
      if avgTarget == 0 then Err(ZeroAverageSize)
      else
        var estimated := FloorDiv(usable, avgTarget);
        var count := Max(s.minFileCount, Min(estimated, s.maxFileCount));
        var avg := if count > 0 then Max(s.minFileSize, Min(FloorDiv(usable, count), s.maxFileSize))
                   else s.minFileSize;
        Ok((count, avg))
  }

  /** The planned count is the estimate clamped into the configured count range. */
  lemma FillDriveCount(s: ChaffSettings, availableSpace: int)
    requires availableSpace - s.minimumRemainingDiskSpace > 0
    requires FloorDiv(s.minFileSize + s.maxFileSize, 2) != 0
    ensures var usable := availableSpace - s.minimumRemainingDiskSpace;
      var estimate := FloorDiv(usable, FloorDiv(s.minFileSize + s.maxFileSize, 2));
      FillDriveParameters(s, availableSpace)
        == Ok((Max(s.minFileCount, Min(estimate, s.maxFileCount)),
               FillDriveParameters(s, availableSpace).value.1))
  {
  }

  // ---------------------------------------------------------------------
  // _generate_filename

  /** The base names of one language; languages outside the table use the English ones. */
  function BaseNames(language: string): (r: seq<string>)
    ensures |r| >= 5
  {
    if language == "es" then ["documento", "informe", "datos", "archivo", "respaldo", "temporal"]
    else if language == "fr" then ["document", "rapport", "donnees", "fichier", "sauvegarde", "temporaire"]
    else if language == "de" then ["dokument", "bericht", "daten", "datei", "sicherung", "temporaer"]
    else if language == "cn" then ["wenjian", "baogao", "shuju", "beifen", "linshi"]
    else if language == "jp" then ["bunso", "hokoku", "deeta", "bakkuappu", "ichiji"]
    else if language == "ru" then ["dokument", "otchet", "dannye", "fajl", "rezerv", "vremennyj"]
    else ["document", "report", "data", "file", "backup", "archive", "temp"]
  }

  const Suffixes: seq<string> := ["", "_copy", "_backup", "_final", "_draft", "_v2", "_old"]

  const FirstStamp: nat := 20200101
  const LastStamp: nat := 20241231

  /** The optional `_YYYYMMDD` part of a filename. */
  predicate StampPart(st: string)
  {
    st == [] || exists n :: FirstStamp <= n <= LastStamp && st == "_" + NatToString(n)
  }

  /**
   * `_generate_filename`: a base name, an optional `_` + stamp, a suffix,
   * then "." + the type. The index argument of the source is unused there.
   */
  function GenerateFilename(t: Tape, fileType: string, language: string): (r: (string, Tape))
    ensures EndsWith(r.0, "." + fileType)
    ensures exists b, st, sf ::
      (b in BaseNames(language) && sf in Suffixes && StampPart(st) && r.0 == b + st + sf + "." + fileType)
  {
    var names := BaseNames(language);
    var (i, t1) := DrawBelow(t, |names|);
    var (j, t2) := DrawBelow(t1, |Suffixes|);
    var (stamped, t3) := DrawChance(t2, 30);
    var (stamp, t4) := if stamped then DrawInt(t3, FirstStamp, LastStamp) else (0, t3);
    var st := if stamped then "_" + NatToString(stamp) else "";
    var name := names[i] + st + Suffixes[j] + "." + fileType;
    assert StampPart(st);
    assert EndsWith(name, "." + fileType) by {
      assert name == (names[i] + st + Suffixes[j]) + ("." + fileType);
    }
    (name, if stamped then t4 else t3)
  }

  // ---------------------------------------------------------------------
  // generate_file_plan

  predicate SizesWithin(plans: seq<FileGenerationPlan>, lo: int, hi: int)
  {
    forall k :: 0 <= k < |plans| ==> lo <= plans[k].sizeBytes <= hi
  }

  /** What every plan of a successful run satisfies. */
  predicate PlanShaped(s: ChaffSettings, p: FileGenerationPlan)
  {
    p.fileType in s.chaffFileTypes && p.language in s.includeLanguages
    && EndsWith(p.filename, "." + p.fileType)
  }

  /** `files` files of `lo` to `hi` bytes can fill exactly `space` bytes. */
  predicate Shareable(files: int, space: int, lo: int, hi: int)
  {
    files * lo <= space <= files * hi
  }

  /** No files left: the space must be used up. */
  lemma ShareableNone(space: int, lo: int, hi: int)
    requires Shareable(0, space, lo, hi)
    ensures space == 0
  {
  }

  lemma ShareOutWindow(files: int, space: int, lo: int, hi: int)
    requires files > 1 && lo <= hi && files * lo <= space <= files * hi
    ensures Max(lo, space - (files - 1) * hi) <= Min(hi, space - (files - 1) * lo)
  {
    assert files * lo == (files - 1) * lo + lo;
    assert files * hi == (files - 1) * hi + hi;
    assert (files - 1) * lo <= (files - 1) * hi by { MulMonotone(files - 1, lo, hi); }
  }

  /** Each share-out draw leaves a remainder the remaining files can still fit. */
  lemma ShareOutStep(files: int, space: int, lo: int, hi: int, size: int)
    requires files >= 1 && lo <= hi && files * lo <= space <= files * hi
    requires files > 1 ==> Max(lo, space - (files - 1) * hi) <= size <= Min(hi, space - (files - 1) * lo)
    requires files == 1 ==> size == Max(lo, Min(space, hi))
    ensures (files - 1) * lo <= space - size <= (files - 1) * hi
  {
    assert files * lo == (files - 1) * lo + lo;
    assert files * hi == (files - 1) * hi + hi;
  }

  lemma MulMonotone(c: int, a: int, b: int)
    requires c >= 0 && a <= b
    ensures c * a <= c * b
  {
    assert c * b - c * a == c * (b - a);
  }

  /**
   * One iteration of the planning loop: the type, the language, the size
   * and the filename of the next file. When `shareOut` (fill-drive mode
   * with a non-zero target total) the size is drawn so that the files
   * still to plan can fit the space still to share out.
   */
  method NextPlan(s: ChaffSettings, shareOut: bool, remainingFiles: int, remainingSpace: int, rng: Random)
    returns (r: Result<FileGenerationPlan, PlanError>)
    modifies rng
    ensures r.Ok? ==> PlanShaped(s, r.value)
    ensures r.Ok? && (!shareOut || s.minFileSize <= s.maxFileSize)
      ==> s.minFileSize <= r.value.sizeBytes <= s.maxFileSize
    ensures r.Err? ==> r.error in {NoFileTypes, NoLanguages, EmptySizeRange}
    ensures r.Ok? && shareOut && s.minFileSize <= s.maxFileSize && remainingFiles >= 1
      && Shareable(remainingFiles, remainingSpace, s.minFileSize, s.maxFileSize)
      ==> Shareable(remainingFiles - 1, remainingSpace - r.value.sizeBytes, s.minFileSize, s.maxFileSize)
    ensures r.Err? && shareOut ==> r.error != EmptySizeRange
  {
    if s.chaffFileTypes == [] {
      return Err(NoFileTypes);
    }
    var ti := rng.RandBelow(|s.chaffFileTypes|);
    var fileType := s.chaffFileTypes[ti];
    if s.includeLanguages == [] {
      return Err(NoLanguages);
    }
    var li := rng.RandBelow(|s.includeLanguages|);
    var language := s.includeLanguages[li];
    var fileSize: int;
    if shareOut {
      var feasible := s.minFileSize <= s.maxFileSize && remainingFiles >= 1
        && remainingFiles * s.minFileSize <= remainingSpace <= remainingFiles * s.maxFileSize;
      if remainingFiles > 1 {
        var maxForThis := Min(s.maxFileSize, remainingSpace - (remainingFiles - 1) * s.minFileSize);
        var minForThis := Max(s.minFileSize, remainingSpace - (remainingFiles - 1) * s.maxFileSize);
        if feasible {
          ShareOutWindow(remainingFiles, remainingSpace, s.minFileSize, s.maxFileSize);
        }
        if maxForThis >= minForThis {
          fileSize := rng.RandInt(minForThis, maxForThis);
        } else {
          fileSize := s.minFileSize;
        }
      } else {
        fileSize := Max(s.minFileSize, Min(remainingSpace, s.maxFileSize));
      }
      if feasible {
        ShareOutStep(remainingFiles, remainingSpace, s.minFileSize, s.maxFileSize, fileSize);
      }
    } else {
      if s.minFileSize > s.maxFileSize {
        return Err(EmptySizeRange);
      }
      fileSize := rng.RandInt(s.minFileSize, s.maxFileSize);
    }
    var named := GenerateFilename(rng.tape, fileType, language);
    rng.tape := named.1;
    return Ok(FileGenerationPlan(fileType, fileSize, language, named.0));
  }

  /** `generate_file_plan`: one plan per file, or the exception the source raises. */
  method GenerateFilePlan(s: ChaffSettings, availableSpace: int, rng: Random)
    returns (r: Result<seq<FileGenerationPlan>, PlanError>)
    modifies rng
    ensures r.Ok? ==> forall k :: 0 <= k < |r.value| ==> PlanShaped(s, r.value[k])
    ensures !s.fillDrive && s.minFileCount > s.maxFileCount ==> r == Err(EmptyCountRange)
    ensures !s.fillDrive && r.Ok? ==> Max(s.minFileCount, 0) <= |r.value| <= Max(s.maxFileCount, 0)
    ensures !s.fillDrive && r.Ok? ==> SizesWithin(r.value, s.minFileSize, s.maxFileSize)
    ensures s.fillDrive ==> match FillDriveParameters(s, availableSpace)
      case Err(e) => r == Err(e)
      case Ok((count, _)) => r.Ok? ==> |r.value| == Max(count, 0)
    ensures s.fillDrive && r.Ok? && s.minFileSize <= s.maxFileSize
      ==> SizesWithin(r.value, s.minFileSize, s.maxFileSize)
    ensures s.fillDrive && r.Ok? && s.minFileSize <= s.maxFileSize && FillDriveParameters(s, availableSpace).Ok?
      ==> var (count, avg) := FillDriveParameters(s, availableSpace).value;
          count > 0 && avg != 0 ==> TotalSize(r.value) == count * avg
  {
    var fileCount: int, avgSize: int;
    if s.fillDrive {
      var params := FillDriveParameters(s, availableSpace);
      if params.Err? {
        return Err(params.error);
      }
      fileCount, avgSize := params.value.0, params.value.1;
      if fileCount == 0 {
        return Ok([]);
      }
    } else {
      if s.minFileCount > s.maxFileCount {
        return Err(EmptyCountRange);
      }
      fileCount := rng.RandInt(s.minFileCount, s.maxFileCount);
      avgSize := FloorDiv(s.minFileSize + s.maxFileSize, 2);
    }
    var targetTotal := if s.fillDrive then fileCount * avgSize else 0;
    if s.fillDrive && s.minFileSize <= s.maxFileSize && fileCount > 0 {
      MulMonotone(fileCount, s.minFileSize, avgSize);
      MulMonotone(fileCount, avgSize, s.maxFileSize);
      if avgSize > 0 { MulMonotone(fileCount, 1, avgSize); }
      if avgSize < 0 { MulMonotone(fileCount, avgSize, -1); }
    }
    r := PlanFiles(s, fileCount, s.fillDrive && targetTotal != 0, targetTotal, rng);
  }

  /**
   * The planning loop of `generate_file_plan`: `fileCount` plans, sharing
   * out `targetTotal` bytes when `shareOut`.
   */
  method PlanFiles(s: ChaffSettings, fileCount: int, shareOut: bool, targetTotal: int, rng: Random)
    returns (r: Result<seq<FileGenerationPlan>, PlanError>)
    modifies rng
    ensures r.Ok? ==> |r.value| == Max(fileCount, 0)
    ensures r.Ok? ==> forall k :: 0 <= k < |r.value| ==> PlanShaped(s, r.value[k])
    ensures r.Ok? && (!shareOut || s.minFileSize <= s.maxFileSize)
      ==> SizesWithin(r.value, s.minFileSize, s.maxFileSize)
    ensures r.Ok? && shareOut && s.minFileSize <= s.maxFileSize && fileCount > 0
      && fileCount * s.minFileSize <= targetTotal <= fileCount * s.maxFileSize
      ==> TotalSize(r.value) == targetTotal
  {
    var plans: seq<FileGenerationPlan> := [];
    var totalAllocated := 0;
    var feasible := shareOut && s.minFileSize <= s.maxFileSize && fileCount > 0
      && Shareable(fileCount, targetTotal, s.minFileSize, s.maxFileSize);
    var i := 0;
    while i < fileCount
      invariant 0 <= i <= Max(fileCount, 0)
      invariant |plans| == i
      invariant forall k :: 0 <= k < i ==> PlanShaped(s, plans[k])
      invariant (!shareOut || s.minFileSize <= s.maxFileSize)
        ==> SizesWithin(plans, s.minFileSize, s.maxFileSize)
      invariant totalAllocated == TotalSize(plans)
      invariant feasible ==> Shareable(fileCount - i, targetTotal - totalAllocated, s.minFileSize, s.maxFileSize)
    {
      hide PlanShaped, TotalSize, Shareable;
      var remainingFiles, remainingSpace := fileCount - i, targetTotal - totalAllocated;
      var next := NextPlan(s, shareOut, remainingFiles, remainingSpace, rng);
      if next.Err? {
        return Err(next.error);
      }
      TotalSizeSnoc(plans, next.value);
      plans := plans + [next.value];
      totalAllocated := totalAllocated + next.value.sizeBytes;
      i := i + 1;
    }
    if feasible {
      ShareableNone(targetTotal - totalAllocated, s.minFileSize, s.maxFileSize);
    }
    return Ok(plans);
  }

  // ---------------------------------------------------------------------
  // get_generation_summary

  datatype GenerationSummary = GenerationSummary(
    totalFiles: nat,
    totalSize: int,
    fileTypes: Dict<string, nat>,
    languages: Dict<string, nat>,
    averageFileSize: Option<int>)  // absent from the empty summary

  function TotalSize(plans: seq<FileGenerationPlan>): int
  {
    if plans == [] then 0 else TotalSize(plans[..|plans| - 1]) + plans[|plans| - 1].sizeBytes
  }

  /** One more plan adds its size. */
  lemma TotalSizeSnoc(plans: seq<FileGenerationPlan>, p: FileGenerationPlan)
    ensures TotalSize(plans + [p]) == TotalSize(plans) + p.sizeBytes
  {
    assert (plans + [p])[..|plans|] == plans;
  }

  function TypesOf(plans: seq<FileGenerationPlan>): (r: seq<string>)
    ensures |r| == |plans| && forall k :: 0 <= k < |plans| ==> r[k] == plans[k].fileType
  {
    if plans == [] then [] else TypesOf(plans[..|plans| - 1]) + [plans[|plans| - 1].fileType]
  }

  function LanguagesOf(plans: seq<FileGenerationPlan>): (r: seq<string>)
    ensures |r| == |plans| && forall k :: 0 <= k < |plans| ==> r[k] == plans[k].language
  {
    if plans == [] then [] else LanguagesOf(plans[..|plans| - 1]) + [plans[|plans| - 1].language]
  }

  lemma SummaryStep(plans: seq<FileGenerationPlan>, i: nat)
    requires i < |plans|
    ensures TotalSize(plans[..i + 1]) == TotalSize(plans[..i]) + plans[i].sizeBytes
    ensures TypesOf(plans[..i + 1]) == TypesOf(plans[..i]) + [plans[i].fileType]
    ensures LanguagesOf(plans[..i + 1]) == LanguagesOf(plans[..i]) + [plans[i].language]
  {
    assert plans[..i + 1][..i] == plans[..i];
  }

  /** The loop of `get_generation_summary`: the total size and the two tallies, one plan at a time. */
  method CountPlans(plans: seq<FileGenerationPlan>) returns (total: int, types: Dict<string, nat>, languages: Dict<string, nat>)
    ensures total == TotalSize(plans)
    ensures types == Tally(TypesOf(plans)) && languages == Tally(LanguagesOf(plans))
  {
    types, languages := [], [];
    ghost var typeKeys: seq<string> := [];
    ghost var languageKeys: seq<string> := [];
    total := 0;
    var i := 0;
    while i < |plans|
      invariant 0 <= i <= |plans|
      invariant total == TotalSize(plans[..i])
      invariant typeKeys == TypesOf(plans[..i]) && languageKeys == LanguagesOf(plans[..i])
      invariant types == Tally(typeKeys) && languages == Tally(languageKeys)
    {
      hide Tally, Bump, TotalSize, TypesOf, LanguagesOf;
      var p := plans[i];
      SummaryStep(plans, i);
      TallySnoc(typeKeys, p.fileType);
      TallySnoc(languageKeys, p.language);
      types := Bump(types, p.fileType);
      languages := Bump(languages, p.language);
      typeKeys := typeKeys + [p.fileType];
      languageKeys := languageKeys + [p.language];
      total := total + p.sizeBytes;
      i := i + 1;
    }
    assert plans[..i] == plans;
  }

  /** `get_generation_summary`: totals, per-type and per-language counts, and the average size. */
  method GetGenerationSummary(plans: seq<FileGenerationPlan>) returns (r: GenerationSummary)
    ensures r.totalFiles == |plans| && r.totalSize == TotalSize(plans)
    ensures KeysDistinct(r.fileTypes) && KeysDistinct(r.languages)
    ensures forall t :: DictGet(r.fileTypes, t, 0) == Occurrences(TypesOf(plans), t)
    ensures forall l :: DictGet(r.languages, l, 0) == Occurrences(LanguagesOf(plans), l)
    ensures SumValues(r.fileTypes) == |plans| && SumValues(r.languages) == |plans|
    ensures plans == [] <==> r.averageFileSize.None?
    ensures plans != [] ==> r.averageFileSize == Some(FloorDiv(TotalSize(plans), |plans|))
  {
    hide Tally, TotalSize, TypesOf, LanguagesOf, Occurrences, DictGet, SumValues, KeysDistinct, FloorDiv;
    var total, types, languages := CountPlans(plans);
    TallyCounts(TypesOf(plans));
    TallyCounts(LanguagesOf(plans));
    if plans == [] {
      // no plans: empty counts and no average
      return GenerationSummary(|plans|, total, types, languages, None);
    }
    return GenerationSummary(|plans|, total, types, languages, Some(FloorDiv(total, |plans|)));
  }
}
